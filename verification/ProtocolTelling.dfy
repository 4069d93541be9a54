// Presence with authentication, in every interleaving, exactly: who is told of a user since it came, over a run.
module ProtocolTelling {
  import opened ConnSpec
  import opened Protocol
  import Membership = ProtocolMembership
  import Lifecycle = ProtocolLifecycle
  import Presence = ProtocolPresence
  import Leak = ProtocolLeak
  import Users = ProtocolUsers

  // ---- What a thread can be about to say about users -----------------------------------------------------------

  // The announcements pending in the thread of e: those of its list, to itself and about other users, or its own.
  predicate MaySend(t: Thread, e: Cid, x: Send) {
    && t.pc.Hello? && x.ev.AuthJoin?
    && (|| (t.pc.h.AuthList? && x.to == e && x.ev.user != t.user)
        || (t.pc.h.AuthCast? && x.ev.user == t.user && t.io.pending[x] == 1))
  }

  predicate Pending(t: Thread, e: Cid) {
    && (forall x :: x in t.io.pending && x.ev.AuthJoin? ==> MaySend(t, e, x))
    && (forall x :: x in t.io.later ==> !x.ev.AuthJoin?)
  }

  predicate Steady(t: Thread) {
    && (t.pc.Hello? && (t.pc.h.AuthCastSnap? || t.pc.h.AuthCast?) ==> t.first)
    && (t.failed.list && !t.failed.auth ==> !Lifecycle.InCheckAuth(t.pc))
    && (t.failed.auth ==> t.pc.Done?)
  }

  ghost predicate AllSteady(s: State) {
    forall e :: e in s.threads ==> e <= s.nextId && Pending(s.threads[e], e) && Steady(s.threads[e])
  }

  lemma HelloPending(s: State, c: Cid, h: HelloPc)
    requires c in s.threads && s.threads[c].pc == Hello(h) && !h.Credentials? && Pending(s.threads[c], c)
    requires Sending(s.threads[c].pc) ==> s.threads[c].io.pending == multiset{}
    ensures Pending(OnHello(s, c, h).threads[c], c)
  {
    hide Fan, TellUsers, TellClients, TellRooms, OtherClients;
  }

  lemma HelloSteady(s: State, c: Cid, h: HelloPc)
    requires c in s.threads && s.threads[c].pc == Hello(h) && !h.Credentials? && Steady(s.threads[c])
    requires Presence.Consistent(s.threads[c])
    ensures Steady(OnHello(s, c, h).threads[c])
  {
    hide Fan, TellUsers, TellClients, TellRooms, Others, OtherClients;
  }

  lemma RoomPending(cfg: Config, c: Cid, t: Thread, rm: Rooms, table: set<Cid>, r: RoomPc, pick: Ptr)
    requires CanMove(cfg, t.mem, rm, r, pick) && t.pc == InRoom(r) && Pending(t, c) && Steady(t)
    ensures var t' := OnRoom(cfg, c, t, rm, table, r, pick).t;
            Pending(t', c) && Steady(t')
  {
    hide Fan, TellMembers;
  }

  lemma ByePending(cfg: Config, s: State, c: Cid, b: ByePc, pick: Ptr)
    requires c in s.threads && s.threads[c].pc == Bye(b) && Pending(s.threads[c], c) && Steady(s.threads[c])
    ensures var t' := OnBye(cfg, s, c, b, pick).threads[c];
            Pending(t', c) && Steady(t')
  {
    hide Fan, RemoveAuth, AnyLeft, OtherClients;
  }

  lemma LookupSteady(t: Thread, e: Cid, rm: Rooms, id: string, join: bool)
    requires t.pc == Looking(id, join) && Pending(t, e) && Steady(t)
    ensures Pending(OnLookup(t, rm, id, join), e) && Steady(OnLookup(t, rm, id, join))
  {
  }

  lemma CreateSteady(c: Cid, t: Thread, rm: Rooms, id: string, public: bool)
    requires t.pc == Creating(id, public) && Pending(t, c) && Steady(t)
    ensures var t' := OnCreate(c, t, rm, id, public).t;
            Pending(t', c) && Steady(t')
  {
  }

  lemma MoveSteady(cfg: Config, s: State, a: Action)
    requires Enabled(cfg, s, a) && a.Move? && Pending(s.threads[a.c], a.c) && Steady(s.threads[a.c])
    requires Presence.Consistent(s.threads[a.c])
    ensures var t' := Apply(cfg, s, a).threads[a.c];
            Pending(t', a.c) && Steady(t')
  {
    hide OnHello, OnBye, OnRoom, OnLookup, OnCreate, WriterPending, Pending, Steady;
    match s.threads[a.c].pc {
      case Hello(h) =>
        HelloPending(s, a.c, h);
        HelloSteady(s, a.c, h);
      case Looking(id, join) => LookupSteady(s.threads[a.c], a.c, s.rm, id, join);
      case Creating(id, public) => CreateSteady(a.c, s.threads[a.c], s.rm, id, public);
      case InRoom(r) => RoomPending(cfg, a.c, s.threads[a.c], s.rm, s.table, r, a.pick);
      case Bye(b) => ByePending(cfg, s, a.c, b, a.pick);
      case _ =>
    }
  }

  lemma SentPending(t: Thread, e: Cid, x: Send, ok: bool)
    requires Sending(t.pc) && x in t.io.pending && Pending(t, e)
    ensures Pending(OnSent(t, x, ok), e)
  {
    var t' := OnSent(t, x, ok);
    assert t'.io == NO_IO || (t'.pc == t.pc && t'.user == t.user && t'.io.later == t.io.later);
    assert t'.io.pending <= t.io.pending;
    hide OnSent, Sending;
    forall y | y in t'.io.pending && y.ev.AuthJoin?
      ensures MaySend(t', e, y)
    {
      assert MaySend(t, e, y);
    }
  }

  lemma SentSteady(t: Thread, x: Send, ok: bool)
    requires Sending(t.pc) && Steady(t)
    ensures Steady(OnSent(t, x, ok))
  {
  }

  lemma OwnSteady(cfg: Config, s: State, a: Action)
    requires Enabled(cfg, s, a) && !a.Accept? && Pending(s.threads[a.c], a.c) && Steady(s.threads[a.c])
    requires Presence.Consistent(s.threads[a.c])
    ensures var t' := Apply(cfg, s, a).threads[a.c];
            Pending(t', a.c) && Steady(t')
  {
    if a.Move? {
      hide Apply, Enabled, Pending, Steady;
      MoveSteady(cfg, s, a);
    } else {
      if a.Deliver? {
        SentPending(s.threads[a.c], a.c, a.x, a.ok);
        SentSteady(s.threads[a.c], a.x, a.ok);
      }
      hide OnHello, OnRoom, OnBye, OnCreate, OnLookup, OnSent, SetAuth, First, MaySend;
    }
  }

  lemma FreshSteady(cfg: Config, c: Cid)
    ensures Pending(Fresh(cfg, c), c) && Steady(Fresh(cfg, c))
  {
  }

  lemma StepSteady(cfg: Config, s: State, a: Action, s': State)
    requires AllSteady(s) && Presence.Inv(cfg, s) && Enabled(cfg, s, a) && s' == Apply(cfg, s, a)
    ensures AllSteady(s')
  {
    hide Apply, Enabled, Pending, Steady, Lifecycle.Inv, Presence.Consistent;
    Membership.NewThread(cfg, s, a, s');
    Membership.StepThreads(cfg, s, a);
    if a.Accept? {
      FreshSteady(cfg, s.nextId + 1);
    } else {
      OwnSteady(cfg, s, a);
    }
  }

  // ---- One step ----------------------------------------------------------------------------------------------------

  // A first connection of u that is not through with its announcement.
  predicate Announcer(t: Thread, u: User) {
    && t.pc.Hello? && t.first && t.user == u
    && (t.pc.h.AuthSnap? || t.pc.h.AuthList? || t.pc.h.AuthCastSnap? || t.pc.h.AuthCast?)
  }

  ghost predicate OnlyAnnouncer(s: State, u: User, d: Cid) {
    forall e :: e in s.threads && e != d ==> !Announcer(s.threads[e], u)
  }

  // A connection of another user that is registered and past the place of x in its list.
  predicate Settled(s: State, c: Cid, x: Send) {
    Presence.Up(s, c) && !Presence.ListDue(s.threads[c], x)
  }

  lemma QuietMove(cfg: Config, s: State, a: Action)
    requires Enabled(cfg, s, a) && a.Move? && !s.threads[a.c].pc.Hello?
    ensures var t, t' := s.threads[a.c], Apply(cfg, s, a).threads[a.c];
            t'.first == t.first && t'.user == t.user && !t'.pc.Hello? && t'.failed == t.failed
    ensures a.c in Apply(cfg, s, a).conns.clients ==> a.c in s.conns.clients
  {
    hide OnHello, OnRoom, WriterPending, Fan, TellMembers, SetAuth, AnyLeft, OtherClients;
    if s.threads[a.c].pc.InRoom? {
      RoomQuiet(cfg, a.c, s.threads[a.c], s.rm, s.table, s.threads[a.c].pc.r, a.pick);
    }
  }

  lemma RoomQuiet(cfg: Config, c: Cid, t: Thread, rm: Rooms, table: set<Cid>, r: RoomPc, pick: Ptr)
    requires CanMove(cfg, t.mem, rm, r, pick)
    ensures var t' := OnRoom(cfg, c, t, rm, table, r, pick).t;
            t'.first == t.first && t'.user == t.user && !t'.pc.Hello? && t'.failed == t.failed
  {
    hide Fan, TellMembers;
  }

  lemma HelloAnnounces(s: State, c: Cid, h: HelloPc, u: User)
    requires c in s.threads && s.threads[c].pc == Hello(h) && !h.Credentials? && Presence.Consistent(s.threads[c])
    ensures var t' := OnHello(s, c, h).threads[c];
            t'.pc != Hello(Credentials) && (Announcer(t', u) ==> Announcer(s.threads[c], u))
    ensures OnHello(s, c, h).conns == s.conns
  {
    hide TellUsers, TellClients, TellRooms, Others, OtherClients, Fan;
  }

  lemma SentAnnounces(t: Thread, y: Send, ok: bool, u: User)
    ensures Announcer(OnSent(t, y, ok), u) ==> Announcer(t, u)
    ensures t.pc != Hello(Credentials) ==> OnSent(t, y, ok).pc != Hello(Credentials)
  {
  }

  lemma NewAnnouncer(cfg: Config, s: State, a: Action, u: User)
    requires Enabled(cfg, s, a) && !a.Accept? && Presence.Consistent(s.threads[a.c])
    requires Announcer(Apply(cfg, s, a).threads[a.c], u)
    ensures Announcer(s.threads[a.c], u) || (a.Login? && a.user == u && First(s.conns, a.c, u))
  {
    hide OnHello, OnRoom, OnBye, OnCreate, OnLookup, OnSent, WriterPending, First;
    if a.Deliver? {
      SentAnnounces(s.threads[a.c], a.x, a.ok, u);
    } else if a.Move? && s.threads[a.c].pc.Hello? {
      HelloAnnounces(s, a.c, s.threads[a.c].pc.h, u);
    } else if a.Move? {
      QuietMove(cfg, s, a);
    }
  }

  // While u is connected nobody else is its first connection.
  lemma StillOnly(cfg: Config, s: State, a: Action, s': State, u: User, d: Cid)
    requires Presence.Inv(cfg, s) && Enabled(cfg, s, a) && s' == Apply(cfg, s, a)
    requires OnlyAnnouncer(s, u, d) && u in s.conns.users
    ensures OnlyAnnouncer(s', u, d)
  {
    assert a.Accept? ==> s'.threads[s.nextId + 1] == Fresh(cfg, s.nextId + 1);
    assert a.Login? ==> s.threads[a.c].pc == Hello(Credentials);
    hide Apply, Enabled, First;
    Membership.StepThreads(cfg, s, a);
    if !a.Accept? && Announcer(s'.threads[a.c], u) {
      NewAnnouncer(cfg, s, a, u);
      if a.Login? {
        assert Lifecycle.Placed(cfg, s.table, s.conns, s.readers, a.c, s.threads[a.c]);
        var e := Pick(s.conns.users[u]);
        Leak.SecondIsNotFirst(s.conns, a.c, e, u);
      }
    }
  }

  lemma SentGrows(cfg: Config, s: State, a: Action)
    requires Enabled(cfg, s, a)
    ensures Apply(cfg, s, a).sent == if a.Deliver? then s.sent + multiset{a.x} else s.sent
  {
    hide Fan, TellUsers, TellClients, TellRooms, TellMembers, Others, OtherClients, First, SetAuth, RemoveAuth, AnyLeft;
    hide WriterPending, OnRoom, OnCreate, OnSent, OnLookup;
  }

  // The announcement of u to a settled connection is sent by the one announcer.
  lemma WhoSends(cfg: Config, s: State, a: Action, c: Cid, d: Cid, u: User)
    requires Enabled(cfg, s, a) && a.Deliver? && a.x == Send(c, AuthJoin(u)) && AllSteady(s)
    requires Settled(s, c, a.x) && s.threads[c].user != u && OnlyAnnouncer(s, u, d)
    ensures a.c == d && s.threads[d].pc == Hello(AuthCast) && s.threads[d].io.pending[a.x] == 1
  {
    assert MaySend(s.threads[a.c], a.c, a.x);
  }

  lemma HelloSilent(s: State, d: Cid, h: HelloPc, x: Send)
    requires d in s.threads && s.threads[d].pc == Hello(h) && !h.Credentials? && s.threads[d].first
    requires Steady(s.threads[d]) && Presence.Consistent(s.threads[d])
    requires h.AuthCast? ==> x !in s.threads[d].io.pending
    requires x.ev == AuthJoin(s.threads[d].user) && x.to in OtherClients(s.conns, s.threads[d].user)
    ensures var t' := OnHello(s, d, h).threads[d];
            && t'.first && t'.user == s.threads[d].user && t'.pc != Hello(Credentials)
            && (Users.Silent(t', x) <==> Users.Silent(s.threads[d], x))
  {
    hide TellUsers, TellClients, TellRooms, OtherClients, Fan;
  }

  lemma SentSilent(t: Thread, x: Send, y: Send, ok: bool)
    requires Sending(t.pc) && y in t.io.pending && t.first && Steady(t) && t.pc != Hello(Credentials)
    requires t.pc == Hello(AuthCast) && y == x ==> t.io.pending[x] == 1
    ensures var t' := OnSent(t, y, ok);
            && t'.first && t'.user == t.user && t'.pc != Hello(Credentials)
            && (Users.Silent(t', x) <==> Users.Silent(t, x) && !(t.pc == Hello(AuthCast) && y == x))
  {
  }

  lemma NotSilent(t: Thread, x: Send)
    requires !t.failed.auth && (t.pc.Hello? ==> t.pc.h.Connecting?)
    ensures !Users.Silent(t, x)
  {
  }

  // What a step of the announcer does to its silence towards a registered connection.
  lemma OwnSilent(cfg: Config, s: State, a: Action, x: Send)
    requires Enabled(cfg, s, a) && !a.Accept? && s.threads[a.c].first && s.threads[a.c].pc != Hello(Credentials)
    requires Pending(s.threads[a.c], a.c) && Steady(s.threads[a.c]) && Presence.Consistent(s.threads[a.c])
    requires x.ev == AuthJoin(s.threads[a.c].user) && x.to in OtherClients(s.conns, s.threads[a.c].user)
    ensures var t, t' := s.threads[a.c], Apply(cfg, s, a).threads[a.c];
            && t'.first && t'.user == t.user && t'.pc != Hello(Credentials)
            && (Users.Silent(t', x) <==> Users.Silent(t, x) && !(a.Deliver? && a.x == x && t.pc == Hello(AuthCast)))
  {
    hide OnHello, OnRoom, OnBye, OnCreate, OnLookup, OnSent, WriterPending, OtherClients, Users.Silent;
    var t := s.threads[a.c];
    if a.Deliver? {
      assert t.pc == Hello(AuthCast) && a.x == x ==> MaySend(t, a.c, x);
      SentSilent(t, x, a.x, a.ok);
    } else if a.Move? && t.pc.Hello? {
      HelloSilent(s, a.c, t.pc.h, x);
    } else {
      if a.Move? {
        QuietMove(cfg, s, a);
      }
      Membership.StepThreads(cfg, s, a);
      NotSilent(t, x);
      NotSilent(Apply(cfg, s, a).threads[a.c], x);
    }
  }

  lemma HelloListOver(s: State, c: Cid, h: HelloPc, x: Send)
    requires c in s.threads && s.threads[c].pc == Hello(h) && !Presence.ListDue(s.threads[c], x)
    ensures !Presence.ListDue(OnHello(s, c, h).threads[c], x)
  {
    hide TellUsers, TellClients, TellRooms, Others, OtherClients, Fan;
  }

  lemma SentListOver(t: Thread, x: Send, y: Send, ok: bool)
    requires y in t.io.pending && !Presence.ListDue(t, x)
    ensures !Presence.ListDue(OnSent(t, y, ok), x)
  {
  }

  // A connection that is past its list stays past it.
  lemma ListOver(cfg: Config, s: State, a: Action, x: Send)
    requires Enabled(cfg, s, a) && !a.Accept? && s.threads[a.c].pc != Hello(Credentials)
    requires !Presence.ListDue(s.threads[a.c], x)
    ensures !Presence.ListDue(Apply(cfg, s, a).threads[a.c], x)
  {
    hide OnHello, OnRoom, OnBye, OnCreate, OnLookup, OnSent, WriterPending;
    var t := s.threads[a.c];
    if a.Deliver? {
      SentListOver(t, x, a.x, a.ok);
    } else if a.Move? && t.pc.Hello? {
      HelloListOver(s, a.c, t.pc.h, x);
    } else if a.Move? {
      QuietMove(cfg, s, a);
    }
  }

  lemma UpStarted(cfg: Config, s: State, c: Cid)
    requires Lifecycle.Inv(cfg, s) && Presence.Up(s, c)
    ensures s.threads[c].pc != Hello(Credentials) && c <= s.nextId && s.conns.clients[c] == s.threads[c].user
  {
    assert Lifecycle.Placed(cfg, s.table, s.conns, s.readers, c, s.threads[c]);
  }

  lemma StillSettled(cfg: Config, s: State, a: Action, s': State, c: Cid, x: Send)
    requires Presence.Inv(cfg, s) && Enabled(cfg, s, a) && s' == Apply(cfg, s, a)
    requires Settled(s, c, x) && Presence.Up(s', c)
    ensures Settled(s', c, x) && s'.threads[c].user == s.threads[c].user
  {
    UpStarted(cfg, s, c);
    hide Apply, Enabled, Lifecycle.Inv;
    Membership.StepThreads(cfg, s, a);
    Presence.StepForward(cfg, s, a);
    if Actor(s, a) == c {
      assert !a.Accept?;
      ListOver(cfg, s, a, x);
    }
  }

  // Since u came, c has been sent u once or not at all, and d, the first connection of u, knows.
  ghost predicate Counted(s: State, before: nat, c: Cid, d: Cid, u: User) {
    var x := Send(c, AuthJoin(u));
    && Settled(s, c, x) && s.threads[c].user != u && u in s.conns.users && OnlyAnnouncer(s, u, d)
    && d in s.threads && d <= s.nextId && s.threads[d].first && s.threads[d].user == u
    && s.threads[d].pc != Hello(Credentials)
    && s.sent[x] == before + if Users.Silent(s.threads[d], x) then 0 else 1
  }

  lemma StepCounted(cfg: Config, s: State, a: Action, s': State, before: nat, c: Cid, d: Cid, u: User)
    requires AllSteady(s) && Presence.Inv(cfg, s) && Enabled(cfg, s, a) && s' == Apply(cfg, s, a)
    requires Counted(s, before, c, d, u) && Presence.Up(s', c) && u in s'.conns.users
    ensures Counted(s', before, c, d, u)
  {
    var x := Send(c, AuthJoin(u));
    UpStarted(cfg, s, c);
    assert c in OtherClients(s.conns, u);
    hide Apply, Enabled, Lifecycle.Inv, OnlyAnnouncer, Users.Silent, Pending, Steady, OtherClients;
    Membership.StepThreads(cfg, s, a);
    StillSettled(cfg, s, a, s', c, x);
    StillOnly(cfg, s, a, s', u, d);
    SentGrows(cfg, s, a);
    if a.Deliver? && a.x == x {
      WhoSends(cfg, s, a, c, d, u);
    }
    if Actor(s, a) == d {
      OwnSilent(cfg, s, a, x);
    }
    if a.Deliver? && a.x == x {
      SendsOnce(s, c, d, u);
    }
  }

  // A pending announcement has not been made.
  lemma SendsOnce(s: State, c: Cid, d: Cid, u: User)
    requires d in s.threads && s.threads[d].pc == Hello(AuthCast) && s.threads[d].first
    requires Send(c, AuthJoin(u)) in s.threads[d].io.pending
    ensures Users.Silent(s.threads[d], Send(c, AuthJoin(u)))
  {
  }

  // ---- Over a run --------------------------------------------------------------------------------------------------

  lemma {:induction false} RunSteady(cfg: Config, run: seq<State>)
    requires IsRun(cfg, run)
    ensures AllSteady(run[|run| - 1]) && Presence.Inv(cfg, run[|run| - 1])
  {
    hide Enabled, Apply, Presence.Inv;
    Presence.RunInv(cfg, run);
    if |run| > 1 {
      hide AllSteady;
      RunPrefix(cfg, run);
      RunSteady(cfg, run[..|run| - 1]);
      var a :| Enabled(cfg, run[|run| - 2], a) && run[|run| - 1] == Apply(cfg, run[|run| - 2], a);
      StepSteady(cfg, run[|run| - 2], a, run[|run| - 1]);
    }
  }

  // The connection has authenticated, or has tried to.
  predicate Started(s: State, c: Cid) {
    c in s.threads && c <= s.nextId && s.threads[c].pc != Hello(Credentials)
  }

  lemma NoWayBack(cfg: Config, s: State, a: Action)
    requires Enabled(cfg, s, a) && !a.Accept? && s.threads[a.c].pc != Hello(Credentials)
    requires Presence.Consistent(s.threads[a.c])
    ensures Apply(cfg, s, a).threads[a.c].pc != Hello(Credentials) && !s.threads[a.c].pc.Done?
    ensures a.c in Apply(cfg, s, a).conns.clients ==> a.c in s.conns.clients
  {
    hide OnHello, OnRoom, OnBye, OnCreate, OnLookup, OnSent, WriterPending;
    if a.Deliver? {
      SentAnnounces(s.threads[a.c], a.x, a.ok, "");
    } else if a.Move? && s.threads[a.c].pc.Hello? {
      HelloAnnounces(s, a.c, s.threads[a.c].pc.h, "");
    } else if a.Move? {
      QuietMove(cfg, s, a);
    }
  }

  lemma StaysStarted(cfg: Config, s: State, a: Action, s': State, c: Cid)
    requires Enabled(cfg, s, a) && s' == Apply(cfg, s, a) && Started(s, c) && Presence.Inv(cfg, s)
    ensures Started(s', c) && (Presence.Up(s', c) ==> Presence.Up(s, c))
    ensures s'.threads[c].user == s.threads[c].user
  {
    Leak.SameUser(cfg, s, a, c);
    hide Apply, Enabled, Lifecycle.Inv;
    Membership.StepThreads(cfg, s, a);
    Presence.OthersUp(cfg, s, a, c);
    if Actor(s, a) == c {
      assert !a.Accept?;
      NoWayBack(cfg, s, a);
    }
  }

  lemma {:induction false} StartedFrom(cfg: Config, run: seq<State>, j: nat, c: Cid)
    requires IsRun(cfg, run) && j < |run| && Started(run[j], c)
    ensures Started(run[|run| - 1], c) && run[|run| - 1].threads[c].user == run[j].threads[c].user
  {
    hide Apply, Enabled, Presence.Inv, AllSteady;
    var n := |run| - 1;
    if j < n {
      RunPrefix(cfg, run);
      StartedFrom(cfg, run[..n], j, c);
      var a :| Enabled(cfg, run[n - 1], a) && run[n] == Apply(cfg, run[n - 1], a);
      RunSteady(cfg, run[..n]);
      StaysStarted(cfg, run[n - 1], a, run[n], c);
    }
  }

  // u is connected from j on.
  ghost predicate Connected(run: seq<State>, j: nat, u: User) {
    forall i :: j <= i < |run| ==> u in run[i].conns.users
  }

  lemma {:induction false} CountedTo(cfg: Config, run: seq<State>, j: nat, before: nat, c: Cid, d: Cid, u: User)
    requires IsRun(cfg, run) && j < |run| && Connected(run, j, u) && Counted(run[j], before, c, d, u)
    requires Started(run[j], c) && Presence.Up(run[|run| - 1], c)
    ensures Counted(run[|run| - 1], before, c, d, u)
  {
    hide Apply, Enabled, Counted, Presence.Up, Presence.Inv, AllSteady, Started;
    var n := |run| - 1;
    if j < n {
      RunPrefix(cfg, run);
      StartedFrom(cfg, run[..n], j, c);
      var a :| Enabled(cfg, run[n - 1], a) && run[n] == Apply(cfg, run[n - 1], a);
      RunSteady(cfg, run[..n]);
      StaysStarted(cfg, run[n - 1], a, run[n], c);
      CountedTo(cfg, run[..n], j, before, c, d, u);
      StepCounted(cfg, run[n - 1], a, run[n], before, c, d, u);
    }
  }

  // u comes with the login of d.
  lemma Comes(cfg: Config, s: State, a: Action, s': State, d: Cid, u: User)
    requires Presence.Inv(cfg, s) && Enabled(cfg, s, a) && s' == Apply(cfg, s, a)
    requires u !in s.conns.users && d in Of(s'.conns, u)
    ensures a == Login(d, u) && d in s'.threads && d <= s'.nextId && s'.threads[d].first && s'.threads[d].user == u
    ensures s'.threads[d].pc == Hello(AuthSnap(true)) && OnlyAnnouncer(s', u, d)
  {
    ComesWithLogin(cfg, s, a, u);
    assert Of(s.conns, u) + {d} == {d};
    forall e | e in s.threads && e != d
      ensures !Announcer(s.threads[e], u)
    {
      assert Lifecycle.Placed(cfg, s.table, s.conns, s.readers, e, s.threads[e]);
    }
  }

  lemma ComesWithLogin(cfg: Config, s: State, a: Action, u: User)
    requires Enabled(cfg, s, a) && u !in s.conns.users && u in Apply(cfg, s, a).conns.users
    ensures a.Login? && a.user == u
  {
    hide Fan, TellUsers, TellClients, TellRooms, TellMembers, Others, OtherClients, WriterPending, OnRoom, OnCreate;
  }

  // ---- What giving up means ----------------------------------------------------------------------------------------

  // A send of the list of users fails.
  ghost predicate ListFails(cfg: Config, s: State, s': State, d: Cid) {
    Leak.FailedSend(cfg, s, s', d) && s.threads[d].pc.h.AuthList?
  }

  ghost predicate ListFailed(cfg: Config, run: seq<State>, d: Cid) {
    exists i :: 0 < i < |run| && ListFails(cfg, run[i - 1], run[i], d)
  }

  predicate HasGivenUp(s: State, d: Cid) {
    d in s.threads && Users.GaveUp(s.threads[d])
  }

  lemma HelloGivesUp(s: State, d: Cid, h: HelloPc)
    requires d in s.threads && s.threads[d].pc == Hello(h) && Steady(s.threads[d])
    ensures !Users.GaveUp(OnHello(s, d, h).threads[d])
  {
    hide TellUsers, TellClients, TellRooms, Others, OtherClients, Fan;
  }

  lemma SentGivesUp(t: Thread, y: Send, ok: bool)
    requires Sending(t.pc) && Steady(t)
    ensures Users.GaveUp(OnSent(t, y, ok)) <==> !ok && t.pc.Hello? && t.pc.h.AuthList?
  {
  }

  lemma OwnGivesUp(cfg: Config, s: State, a: Action)
    requires Enabled(cfg, s, a) && !a.Accept? && Steady(s.threads[a.c])
    ensures var t := s.threads[a.c];
            !Users.GaveUp(t) &&
            (Users.GaveUp(Apply(cfg, s, a).threads[a.c]) <==> a.Deliver? && !a.ok && t.pc.Hello? && t.pc.h.AuthList?)
  {
    hide OnHello, OnRoom, OnBye, OnCreate, OnLookup, OnSent, WriterPending;
    var t := s.threads[a.c];
    if a.Deliver? {
      SentGivesUp(t, a.x, a.ok);
    } else if a.Move? && t.pc.Hello? {
      HelloGivesUp(s, a.c, t.pc.h);
    } else if a.Move? {
      QuietMove(cfg, s, a);
    }
  }

  lemma StepGivesUp(cfg: Config, s: State, a: Action, s': State, d: Cid)
    requires AllSteady(s) && Enabled(cfg, s, a) && s' == Apply(cfg, s, a)
    ensures HasGivenUp(s', d) <==> HasGivenUp(s, d) || ListFails(cfg, s, s', d)
  {
    hide Apply, Enabled, Steady, Pending, Users.GaveUp;
    Membership.NewThread(cfg, s, a, s');
    Membership.StepThreads(cfg, s, a);
    FreshGivesNothing(cfg, s.nextId + 1);
    if !a.Accept? {
      OwnGivesUp(cfg, s, a);
      if a.Deliver? && a.c == d && !a.ok && s.threads[d].pc.Hello? && s.threads[d].pc.h.AuthList? {
        assert a == Deliver(d, a.x, false);
      }
    }
    if ListFails(cfg, s, s', d) {
      var x :| Enabled(cfg, s, Deliver(d, x, false)) && s' == Apply(cfg, s, Deliver(d, x, false));
      OwnGivesUp(cfg, s, Deliver(d, x, false));
      Membership.StepThreads(cfg, s, Deliver(d, x, false));
    }
  }

  lemma FreshGivesNothing(cfg: Config, c: Cid)
    ensures !Users.GaveUp(Fresh(cfg, c))
  {
  }

  // A connection has given up exactly when a send of its list of users has failed.
  lemma {:induction false} GaveUpIff(cfg: Config, run: seq<State>, d: Cid)
    requires IsRun(cfg, run)
    ensures HasGivenUp(run[|run| - 1], d) <==> ListFailed(cfg, run, d)
  {
    hide Apply, Enabled, ListFails, AllSteady, Presence.Inv, HasGivenUp;
    var n := |run| - 1;
    if n == 0 {
      NobodyGaveUp(d);
    } else {
      var pre := run[..n];
      RunPrefix(cfg, run);
      RunSteady(cfg, pre);
      GaveUpIff(cfg, pre, d);
      var a :| Enabled(cfg, run[n - 1], a) && run[n] == Apply(cfg, run[n - 1], a);
      StepGivesUp(cfg, run[n - 1], a, run[n], d);
      if ListFailed(cfg, run, d) {
        var i :| 0 < i < |run| && ListFails(cfg, run[i - 1], run[i], d);
        assert i < n ==> ListFails(cfg, pre[i - 1], pre[i], d);
      }
      if ListFailed(cfg, pre, d) {
        var i :| 0 < i < |pre| && ListFails(cfg, pre[i - 1], pre[i], d);
        assert ListFails(cfg, run[i - 1], run[i], d);
      }
    }
  }

  lemma NobodyGaveUp(d: Cid)
    ensures !HasGivenUp(Init(), d)
  {
  }

  // ---- A connection that comes later -------------------------------------------------------------------------------

  // The list of c is not over, or has told u, unless c is of no interest.
  ghost predicate Reads(s: State, before: nat, c: Cid, u: User) {
    var x := Send(c, AuthJoin(u));
    && s.sent[x] >= before
    && (Started(s, c) && Presence.Up(s, c) && s.threads[c].user != u ==>
          Presence.ListDue(s.threads[c], x) || s.sent[x] > before)
  }

  lemma ListCounts(cfg: Config, s: State, a: Action, u: User)
    requires Enabled(cfg, s, a) && !a.Accept? && u in s.conns.users && u != s.threads[a.c].user
    requires Presence.ListDue(s.threads[a.c], Send(a.c, AuthJoin(u)))
    ensures var s', x := Apply(cfg, s, a), Send(a.c, AuthJoin(u));
            s'.sent[x] > s.sent[x] || Presence.ListDue(s'.threads[a.c], x) || s'.threads[a.c].pc.Done?
  {
    assert u in Others(s.conns, s.threads[a.c].user);
    hide Others, TellUsers, Fan, OnRoom, OnBye, OnCreate, OnRequest, WriterPending;
  }

  lemma LoggingInReads(cfg: Config, s: State, a: Action, u: User)
    requires Enabled(cfg, s, a) && !a.Accept? && s.threads[a.c].pc == Hello(Credentials)
    ensures var t' := Apply(cfg, s, a).threads[a.c];
            t'.pc == Hello(Credentials) || t'.pc.Done? || Presence.ListDue(t', Send(a.c, AuthJoin(u)))
  {
    hide First;
  }

  lemma StepReads(cfg: Config, s: State, a: Action, s': State, before: nat, c: Cid, u: User)
    requires Presence.Inv(cfg, s) && Enabled(cfg, s, a) && s' == Apply(cfg, s, a)
    requires Reads(s, before, c, u) && u in s.conns.users
    ensures Reads(s', before, c, u)
  {
    assert a.Accept? ==> s'.threads[s.nextId + 1] == Fresh(cfg, s.nextId + 1);
    assert c in s.threads ==> c <= s.nextId;
    hide Apply, Enabled, Presence.ListDue, Lifecycle.Inv;
    Membership.StepThreads(cfg, s, a);
    SentGrows(cfg, s, a);
    Presence.OthersUp(cfg, s, a, c);
    if Actor(s, a) == c && !a.Accept? && Started(s', c) && Presence.Up(s', c) && s'.threads[c].user != u {
      if s.threads[c].pc == Hello(Credentials) {
        LoggingInReads(cfg, s, a, u);
      } else {
        StaysStarted(cfg, s, a, s', c);
        if Presence.ListDue(s.threads[c], Send(c, AuthJoin(u))) {
          ListCounts(cfg, s, a, u);
        }
      }
    }
  }

  lemma {:induction false} ReadsTo(cfg: Config, run: seq<State>, j: nat, before: nat, c: Cid, u: User)
    requires IsRun(cfg, run) && j < |run| && Connected(run, j, u) && Reads(run[j], before, c, u)
    ensures Reads(run[|run| - 1], before, c, u)
  {
    hide Apply, Enabled, Reads, Presence.Inv, AllSteady;
    var n := |run| - 1;
    if j < n {
      RunPrefix(cfg, run);
      ReadsTo(cfg, run[..n], j, before, c, u);
      RunSteady(cfg, run[..n]);
      var a :| Enabled(cfg, run[n - 1], a) && run[n] == Apply(cfg, run[n - 1], a);
      StepReads(cfg, run[n - 1], a, run[n], before, c, u);
    }
  }

  // ---- Exactly -----------------------------------------------------------------------------------------------------

  lemma PassedIsUp(cfg: Config, s: State, c: Cid, x: Send)
    requires cfg.auth && Presence.Inv(cfg, s) && c in s.threads && Presence.Passed(s.threads[c].pc)
    ensures Started(s, c) && Presence.Up(s, c) && !Presence.ListDue(s.threads[c], x)
  {
    assert Lifecycle.Placed(cfg, s.table, s.conns, s.readers, c, s.threads[c]);
  }

  // When u has just come, everybody is where the counting starts.
  lemma Coming(cfg: Config, run: seq<State>, j: nat, c: Cid, d: Cid, u: User)
    requires IsRun(cfg, run) && 0 < j < |run| && u !in run[j - 1].conns.users && d in Of(run[j].conns, u)
    ensures var s, x := run[j], Send(c, AuthJoin(u));
            && Started(s, d) && Presence.Inv(cfg, s) && u in s.conns.users
            && if Settled(s, c, x) && s.threads[c].user != u then Counted(s, s.sent[x], c, d, u)
               else Reads(s, s.sent[x], c, u)
  {
    hide Presence.Inv, AllSteady;
    Leak.PrefixRun(cfg, run, j - 1);
    Leak.PrefixRun(cfg, run, j);
    RunSteady(cfg, run[..j]);
    RunSteady(cfg, run[..j + 1]);
    assert run[..j + 1][j] == run[j] && run[..j][j - 1] == run[j - 1];
    assert Next(cfg, run[j - 1], run[j]);
    hide Apply, Enabled, IsRun, OnlyAnnouncer;
    var a :| Enabled(cfg, run[j - 1], a) && run[j] == Apply(cfg, run[j - 1], a);
    Comes(cfg, run[j - 1], a, run[j], d, u);
  }

  // In every interleaving, let u come with the login of d and be connected ever since. A connection of another user
  // that passed CheckAuth and is not being revoked has been sent u since then, exactly unless it was past u in its own
  // list when u came, and d has not sent it the announcement yet or has failed at its own list of users.
  lemma UserToldIff(cfg: Config, run: seq<State>, j: nat, c: Cid, d: Cid, u: User)
    requires cfg.auth && IsRun(cfg, run) && 0 < j < |run|
    requires u !in run[j - 1].conns.users && d in Of(run[j].conns, u) && Connected(run, j, u)
    requires var s := run[|run| - 1];
             c in s.threads && Presence.Passed(s.threads[c].pc) && s.threads[c].user != u
    ensures var s, x := run[|run| - 1], Send(c, AuthJoin(u));
            && d in s.threads
            && (s.sent[x] > run[j].sent[x] <==>
                  !(Settled(run[j], c, x) && (Presence.CastDue(s.threads[d], x) || ListFailed(cfg, run, d))))
  {
    var s, x := run[|run| - 1], Send(c, AuthJoin(u));
    RunSteady(cfg, run);
    PassedIsUp(cfg, s, c, x);
    GaveUpIff(cfg, run, d);
    hide Presence.Inv, AllSteady, IsRun, ListFailed, Users.GaveUp;
    Coming(cfg, run, j, c, d, u);
    StartedFrom(cfg, run, j, d);
    if Settled(run[j], c, x) {
      UpStarted(cfg, run[j], c);
      StartedFrom(cfg, run, j, c);
      CountedTo(cfg, run, j, run[j].sent[x], c, d, u);
    } else {
      ReadsTo(cfg, run, j, run[j].sent[x], c, u);
    }
  }
}
