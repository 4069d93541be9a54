// Presence with authentication, in every interleaving: what two connections of different users know of each other.
module ProtocolPresence {
  import opened ConnSpec
  import opened Protocol
  import Membership = ProtocolMembership
  import Lifecycle = ProtocolLifecycle

  // The thread has not taken the list of other users yet, or x is still on it.
  predicate ListDue(t: Thread, x: Send) {
    t.pc.Hello? && (t.pc.h.AuthSnap? || (t.pc.h.AuthList? && x in t.io.pending))
  }

  // The thread has not announced its user yet, or x is still to be sent.
  predicate CastDue(t: Thread, x: Send) {
    && t.pc.Hello?
    && (|| t.pc.h.AuthSnap? || t.pc.h.AuthList? || t.pc.h.AuthCastSnap?
        || (t.pc.h.AuthCast? && x in t.io.pending))
  }

  // x tells the connection of thread t about the user of thread u, whose setAuth answered "first".
  predicate Told(sent: multiset<Send>, t: Thread, u: Thread, x: Send) {
    x in sent || ListDue(t, x) || CastDue(u, x)
  }

  // Registered, and not given up by CheckAuth.
  predicate Up(s: State, c: Cid) {
    c in s.threads && c in s.conns.clients && !s.threads[c].pc.Done?
  }

  predicate TellsOf(s: State, c: Cid, d: Cid)
    requires c in s.threads && d in s.threads
  {
    Told(s.sent, s.threads[c], s.threads[d], Send(c, AuthJoin(s.threads[d].user)))
  }

  // The answer that CheckAuth carries along is the one of setAuth.
  predicate Consistent(t: Thread) {
    t.pc.Hello? && (t.pc.h.AuthSnap? || t.pc.h.AuthList?) ==> t.pc.h.first == t.first
  }

  ghost predicate Inv(cfg: Config, s: State) {
    && Lifecycle.Inv(cfg, s)
    && (forall c :: c in s.threads ==> Consistent(s.threads[c]))
    && forall c, d :: Up(s, c) && Up(s, d) && s.threads[c].user != s.threads[d].user && s.threads[d].first ==>
         TellsOf(s, c, d)
  }

  // What a step of the own thread does to the facts above.
  ghost predicate Forward(s: State, s': State, e: Cid) {
    && s.sent <= s'.sent && e in s'.threads && Consistent(s'.threads[e])
    && (Up(s', e) ==>
          if Up(s, e) then s'.threads[e].user == s.threads[e].user && s'.threads[e].first == s.threads[e].first
          else s'.threads[e].pc.Hello? && s'.threads[e].pc.h.AuthSnap?)
  }

  lemma StepForward(cfg: Config, s: State, a: Action)
    requires Enabled(cfg, s, a) && Lifecycle.Inv(cfg, s)
    requires forall c :: c in s.threads ==> Consistent(s.threads[c])
    ensures Forward(s, Apply(cfg, s, a), Actor(s, a))
  {
    hide Fan, TellUsers, TellClients, TellRooms, TellMembers, First, Others, OtherClients, Of, Grouped;
    hide OnHello, OnRoom, OnBye, OnCreate, OnLookup, WriterPending;
    if a.Accept? {
      assert s.nextId + 1 !in s.conns.clients;
    } else {
      assert Lifecycle.Placed(cfg, s.table, s.conns, s.readers, a.c, s.threads[a.c]);
      hide Lifecycle.Inv;
      if a.Move? {
        hide Forward;
        MoveForward(cfg, s, a);
      }
    }
  }

  // A thread that stays registered keeps its user and the answer of setAuth.
  ghost predicate Kept(t: Thread, t': Thread) {
    t'.user == t.user && t'.first == t.first && Consistent(t')
  }

  lemma HelloKept(s: State, c: Cid, h: HelloPc)
    requires c in s.threads && s.threads[c].pc == Hello(h) && Consistent(s.threads[c])
    ensures c in OnHello(s, c, h).threads && Kept(s.threads[c], OnHello(s, c, h).threads[c])
    ensures OnHello(s, c, h).sent == s.sent && OnHello(s, c, h).conns == s.conns
  {
    hide Fan, TellUsers, TellClients, TellRooms, Others, OtherClients;
  }

  lemma ByeKept(cfg: Config, s: State, c: Cid, b: ByePc, pick: Ptr)
    requires c in s.threads && s.threads[c].pc == Bye(b)
    ensures c in OnBye(cfg, s, c, b, pick).threads && OnBye(cfg, s, c, b, pick).sent == s.sent
    ensures Kept(s.threads[c], OnBye(cfg, s, c, b, pick).threads[c])
    ensures c in OnBye(cfg, s, c, b, pick).conns.clients ==> c in s.conns.clients
  {
    hide Fan, OtherClients, AnyLeft;
  }

  lemma RoomKept(cfg: Config, c: Cid, t: Thread, rm: Rooms, table: set<Cid>, r: RoomPc, pick: Ptr)
    requires CanMove(cfg, t.mem, rm, r, pick)
    ensures Kept(t, OnRoom(cfg, c, t, rm, table, r, pick).t)
  {
    hide Fan, TellMembers;
  }

  lemma MoveForward(cfg: Config, s: State, a: Action)
    requires Enabled(cfg, s, a) && a.Move? && Consistent(s.threads[a.c])
    ensures Forward(s, Apply(cfg, s, a), a.c)
  {
    hide OnHello, OnBye, OnRoom, WriterPending;
    match s.threads[a.c].pc {
      case Hello(h) => HelloKept(s, a.c, h);
      case InRoom(r) => RoomKept(cfg, a.c, s.threads[a.c], s.rm, s.table, r, a.pick);
      case Bye(b) => ByeKept(cfg, s, a.c, b, a.pick);
      case _ =>
    }
  }

  // A step of the connection that is told: its list takes in every other user, and is worked off.
  lemma ListStep(cfg: Config, s: State, a: Action, d: Cid)
    requires Enabled(cfg, s, a) && !a.Accept? && Lifecycle.Inv(cfg, s) && a.c != d
    requires Up(s, a.c) && Up(s, d) && s.threads[a.c].user != s.threads[d].user
    requires var x := Send(a.c, AuthJoin(s.threads[d].user)); ListDue(s.threads[a.c], x)
    ensures var s', x := Apply(cfg, s, a), Send(a.c, AuthJoin(s.threads[d].user));
            x in s'.sent || ListDue(s'.threads[a.c], x) || s'.threads[a.c].pc.Done?
  {
    assert Lifecycle.Placed(cfg, s.table, s.conns, s.readers, a.c, s.threads[a.c]);
    assert Lifecycle.Placed(cfg, s.table, s.conns, s.readers, d, s.threads[d]);
    assert s.threads[d].user in Others(s.conns, s.threads[a.c].user);
    hide Lifecycle.Inv, Grouped, Others, TellUsers, Fan, OnRoom, OnBye, OnCreate, OnRequest;
  }

  // A step of the connection that announces itself: the announcement takes in everybody registered, and is worked off.
  lemma CastStep(cfg: Config, s: State, a: Action, c: Cid)
    requires Enabled(cfg, s, a) && !a.Accept? && Lifecycle.Inv(cfg, s) && a.c != c && Consistent(s.threads[a.c])
    requires Up(s, c) && Up(s, a.c) && s.threads[c].user != s.threads[a.c].user && s.threads[a.c].first
    requires var x := Send(c, AuthJoin(s.threads[a.c].user)); CastDue(s.threads[a.c], x)
    ensures var s', x := Apply(cfg, s, a), Send(c, AuthJoin(s.threads[a.c].user));
            x in s'.sent || CastDue(s'.threads[a.c], x) || s'.threads[a.c].pc.Done?
  {
    assert Lifecycle.Placed(cfg, s.table, s.conns, s.readers, c, s.threads[c]);
    assert c in OtherClients(s.conns, s.threads[a.c].user);
    hide Lifecycle.Inv, Grouped, OtherClients, Others, TellUsers, Fan, OnRoom, OnBye, OnCreate, OnRequest;
  }

  lemma StepTells(cfg: Config, s: State, a: Action, c: Cid, d: Cid)
    requires Enabled(cfg, s, a) && Inv(cfg, s)
    requires var s' := Apply(cfg, s, a);
             Up(s', c) && Up(s', d) && s'.threads[c].user != s'.threads[d].user && s'.threads[d].first
    ensures var s' := Apply(cfg, s, a);
            TellsOf(s', c, d)
  {
    assert forall x :: x in s.threads ==> x <= s.nextId;
    hide Apply, Enabled, Lifecycle.Inv;
    var s', e := Apply(cfg, s, a), Actor(s, a);
    Membership.StepThreads(cfg, s, a);
    StepForward(cfg, s, a);
    OthersUp(cfg, s, a, c);
    OthersUp(cfg, s, a, d);
    assert e != c ==> s'.threads[c] == s.threads[c];
    assert e != d ==> s'.threads[d] == s.threads[d];
    if Up(s, c) && Up(s, d) {
      assert TellsOf(s, c, d);
      if e == c && !a.Accept? && ListDue(s.threads[c], Send(c, AuthJoin(s.threads[d].user))) {
        ListStep(cfg, s, a, d);
      }
      if e == d && !a.Accept? && CastDue(s.threads[d], Send(c, AuthJoin(s.threads[d].user))) {
        CastStep(cfg, s, a, c);
      }
    }
  }

  lemma OthersUp(cfg: Config, s: State, a: Action, c: Cid)
    requires Enabled(cfg, s, a)
    ensures Actor(s, a) != c ==> (Up(Apply(cfg, s, a), c) <==> Up(s, c))
  {
    Membership.StepThreads(cfg, s, a);
    Lifecycle.StepFrame(cfg, s, a);
    hide Apply, Enabled;
    var s', e := Apply(cfg, s, a), Actor(s, a);
    if e != c {
      assert c in s.conns.clients <==> c in s.conns.clients - {e};
      assert c in s'.conns.clients <==> c in s'.conns.clients - {e};
    }
  }

  lemma StepInv(cfg: Config, s: State, a: Action)
    requires Enabled(cfg, s, a) && Inv(cfg, s)
    ensures Inv(cfg, Apply(cfg, s, a))
  {
    var s' := Apply(cfg, s, a);
    hide Apply, Enabled, Lifecycle.Inv, TellsOf, Up;
    Lifecycle.StepInv(cfg, s, a);
    Membership.StepThreads(cfg, s, a);
    StepForward(cfg, s, a);
    forall c, d | Up(s', c) && Up(s', d) && s'.threads[c].user != s'.threads[d].user && s'.threads[d].first
      ensures TellsOf(s', c, d)
    {
      StepTells(cfg, s, a, c, d);
    }
  }

  lemma InitInv(cfg: Config)
    ensures Inv(cfg, Init())
  {
    Lifecycle.InitInv(cfg);
  }

  lemma {:induction false} RunInv(cfg: Config, run: seq<State>)
    requires IsRun(cfg, run)
    ensures Inv(cfg, run[|run| - 1])
  {
    hide Inv, Enabled, Apply;
    InitInv(cfg);
    if |run| > 1 {
      RunPrefix(cfg, run);
      RunInv(cfg, run[..|run| - 1]);
      var a :| Enabled(cfg, run[|run| - 2], a) && run[|run| - 1] == Apply(cfg, run[|run| - 2], a);
      StepInv(cfg, run[|run| - 2], a);
    }
  }

  // CheckAuth is over, and RevokeAuth has not begun.
  predicate Passed(pc: Pc) {
    Lifecycle.Registered(pc) && (pc.Hello? ==> !Lifecycle.InCheckAuth(pc))
  }

  // In every interleaving, a connection that passed CheckAuth and is not being revoked has been sent the user of every
  // other such connection of another user whose setAuth was the first of that user.
  lemma UsersKnown(cfg: Config, s: State, c: Cid, d: Cid)
    requires cfg.auth && Reachable(cfg, s) && c in s.threads && d in s.threads
    requires Passed(s.threads[c].pc) && Passed(s.threads[d].pc)
    requires s.threads[c].user != s.threads[d].user && s.threads[d].first
    ensures Send(c, AuthJoin(s.threads[d].user)) in s.sent
  {
    var run :| IsRun(cfg, run) && run[|run| - 1] == s;
    RunInv(cfg, run);
    hide Reachable, IsRun;
    assert Lifecycle.Placed(cfg, s.table, s.conns, s.readers, c, s.threads[c]);
    assert Lifecycle.Placed(cfg, s.table, s.conns, s.readers, d, s.threads[d]);
    assert Up(s, c) && Up(s, d);
    assert TellsOf(s, c, d);
  }
}
