// Nobody is overlooked: every connection learns of every public room, and any two connections learn of each other.
module ProtocolNotices {
  import opened ConnSpec
  import opened Protocol
  import Membership = ProtocolMembership
  import Lifecycle = ProtocolLifecycle

  // ---- Mutual knowledge ------------------------------------------------------------------------------------

  // The thread has not taken the list of others yet, or x is still on it.
  predicate ListDue(t: Thread, x: Send) {
    t.pc == Hello(JoinSnap) || (t.pc == Hello(JoinList) && x in t.io.pending)
  }

  // The thread has not announced itself yet, or x is still to be announced.
  predicate CastDue(t: Thread, x: Send) {
    || t.pc == Hello(JoinSnap) || t.pc == Hello(JoinList) || t.pc == Hello(JoinCastSnap)
    || (t.pc == Hello(JoinCast) && x in t.io.pending)
  }

  // x tells its receiver (thread t) about its subject (thread u).
  predicate Told(sent: multiset<Send>, t: Thread, u: Thread, x: Send) {
    x in sent || ListDue(t, x) || CastDue(u, x) || t.failed.join || u.failed.join
  }

  ghost predicate Acquainted(s: State) {
    forall c, d :: c in s.table && d in s.table && c != d && c in s.threads && d in s.threads ==>
      Told(s.sent, s.threads[c], s.threads[d], Send(c, UserJoin(d)))
  }

  lemma ListKept(cfg: Config, s: State, a: Action, x: Send)
    requires Enabled(cfg, s, a) && !a.Accept? && ListDue(s.threads[a.c], x)
    requires x.to == a.c && x.ev.UserJoin? && x.ev.who != a.c && x.ev.who in s.table
    ensures var s' := Apply(cfg, s, a);
            x in s'.sent || ListDue(s'.threads[a.c], x) || s'.threads[a.c].failed.join
  {
    hide TellClients, TellUsers, TellRooms, Fan, OnRoom, OnRequest, OnCreate, OnBye;
  }

  lemma CastKept(cfg: Config, s: State, a: Action, x: Send)
    requires Enabled(cfg, s, a) && !a.Accept? && CastDue(s.threads[a.c], x)
    requires x.to in s.table && x.to != a.c && x.ev == UserJoin(a.c)
    ensures var s' := Apply(cfg, s, a);
            x in s'.sent || CastDue(s'.threads[a.c], x) || s'.threads[a.c].failed.join
  {
    hide TellClients, TellUsers, TellRooms, Fan, OnRoom, OnRequest, OnCreate, OnBye;
  }

  // The rest of what a step can do that matters here.
  ghost predicate Forward(s: State, s': State, a: Action) {
    && s.sent <= s'.sent
    && (!a.Accept? ==>
          && a.c in s.threads && a.c in s'.threads
          && (s.threads[a.c].failed.join ==> s'.threads[a.c].failed.join)
          && (s.threads[a.c].failed.list ==> s'.threads[a.c].failed.list)
          && s'.table <= s.table + {a.c}
          && (a.c in s'.table && a.c !in s.table ==> s'.threads[a.c].pc == Hello(JoinSnap)))
    && (a.Accept? ==> s'.table == s.table)
  }

  lemma RoomMoveFailed(cfg: Config, c: Cid, t: Thread, rm: Rooms, table: set<Cid>, r: RoomPc, pick: Ptr)
    requires CanMove(cfg, t.mem, rm, r, pick)
    ensures OnRoom(cfg, c, t, rm, table, r, pick).t.failed == t.failed
  {
    hide TellMembers, Fan;
  }

  lemma MoveForward(cfg: Config, s: State, a: Action)
    requires Enabled(cfg, s, a) && a.Move?
    ensures Forward(s, Apply(cfg, s, a), a)
  {
    hide TellClients, TellUsers, TellRooms, Fan, OnRoom;
    if s.threads[a.c].pc.InRoom? {
      hide OnHello, OnBye;
      RoomMoveFailed(cfg, a.c, s.threads[a.c], s.rm, s.table, s.threads[a.c].pc.r, a.pick);
    } else if s.threads[a.c].pc.Hello? {
      hide OnBye;
    } else {
      hide OnHello;
    }
  }

  lemma StepForward(cfg: Config, s: State, a: Action)
    requires Enabled(cfg, s, a)
    ensures Forward(s, Apply(cfg, s, a), a)
  {
    if a.Move? {
      hide Apply, Enabled, Forward;
      MoveForward(cfg, s, a);
    }
  }

  lemma StepAcquainted(cfg: Config, s: State, a: Action)
    requires Enabled(cfg, s, a) && Acquainted(s) && Lifecycle.Inv(cfg, s)
    ensures Acquainted(Apply(cfg, s, a))
  {
    hide Enabled, Apply;
    var s', e := Apply(cfg, s, a), Actor(s, a);
    Membership.StepThreads(cfg, s, a);
    StepForward(cfg, s, a);
    forall c, d | c in s'.table && d in s'.table && c != d && c in s'.threads && d in s'.threads
      ensures Told(s'.sent, s'.threads[c], s'.threads[d], Send(c, UserJoin(d)))
    {
      var x := Send(c, UserJoin(d));
      if c in s.table && d in s.table {
        assert Told(s.sent, s.threads[c], s.threads[d], x);
        if ListDue(s.threads[c], x) && e == c {
          ListKept(cfg, s, a, x);
        } else if CastDue(s.threads[d], x) && e == d {
          CastKept(cfg, s, a, x);
        }
      }
    }
  }

  // ---- Public rooms ----------------------------------------------------------------------------------------

  // SendPublicRooms has taken its snapshot and RemoveClient has not run.
  predicate Listening(pc: Pc) {
    Lifecycle.Present(pc) && (pc.Hello? ==> pc.h.RoomsList?)
  }

  // The creator of p has not taken the snapshot of clients to tell yet, or x is still to be sent.
  predicate CreateDue(t: Thread, p: Ptr, x: Send) {
    t.pc == InRoom(CreateSnap(p)) || (t.pc == InRoom(CreateCast(p)) && x in t.io.pending)
  }

  // x tells its receiver (thread t) about the public room p created by thread u.
  predicate Notified(sent: multiset<Send>, t: Thread, u: Thread, p: Ptr, x: Send) {
    x in sent || (t.pc == Hello(RoomsList) && x in t.io.pending) || CreateDue(u, p, x) || t.failed.list
  }

  predicate NotifiedOf(s: State, c: Cid, p: Ptr) {
    p.creator in s.threads && c in s.threads
    && Notified(s.sent, s.threads[c], s.threads[p.creator], p, Send(c, RoomCreate(p.id)))
  }

  ghost predicate AllNotified(s: State) {
    && (forall p :: p in s.rm.members ==> p.creator in s.threads)
    && forall c, p :: c in s.threads && Listening(s.threads[c].pc) && p in s.rm.members && p.public ==>
         NotifiedOf(s, c, p)
  }

  // A step of the listener: starting to listen puts every public room on the list, and the list is worked off.
  lemma ListenerStep(cfg: Config, s: State, a: Action, p: Ptr)
    requires Enabled(cfg, s, a) && !a.Accept? && Membership.RoomsOk(s.rm) && p in s.rm.members && p.public
    requires var x := Send(a.c, RoomCreate(p.id));
             || s.threads[a.c].pc == Hello(RoomsSnap)
             || (s.threads[a.c].pc == Hello(RoomsList) && x in s.threads[a.c].io.pending)
    ensures var s', x := Apply(cfg, s, a), Send(a.c, RoomCreate(p.id));
            || x in s'.sent || s'.threads[a.c].failed.list
            || (s'.threads[a.c].pc == Hello(RoomsList) && x in s'.threads[a.c].io.pending)
  {
    hide TellClients, TellUsers, TellMembers, TellRooms, Fan, OnRoom, OnRequest, OnCreate, OnBye;
  }

  // A step of the creator: the snapshot takes in every connection in the table, and is worked off.
  lemma CreatorStep(cfg: Config, s: State, a: Action, p: Ptr, x: Send)
    requires Enabled(cfg, s, a) && !a.Accept? && CreateDue(s.threads[a.c], p, x)
    requires x.ev == RoomCreate(p.id) && x.to in s.table
    ensures var s' := Apply(cfg, s, a);
            x in s'.sent || CreateDue(s'.threads[a.c], p, x)
  {
    hide TellClients, TellUsers, TellMembers, TellRooms, Fan, OnRequest, OnHello, OnBye;
  }

  // A public room that appears has its creator about to announce it.
  lemma NewRooms(cfg: Config, s: State, a: Action, p: Ptr)
    requires Enabled(cfg, s, a) && p in Apply(cfg, s, a).rm.members && p !in s.rm.members
    ensures !a.Accept? && p.creator == a.c
    ensures p.public ==> Apply(cfg, s, a).threads[a.c].pc == InRoom(CreateSnap(p))
  {
    hide TellClients, TellUsers, TellMembers, TellRooms, Fan;
  }

  // Nobody starts to listen except by taking the list of public rooms.
  lemma StartListening(cfg: Config, s: State, a: Action)
    requires Enabled(cfg, s, a) && (a.Accept? || !Listening(s.threads[a.c].pc))
    ensures var s' := Apply(cfg, s, a);
            Listening(s'.threads[Actor(s, a)].pc) ==> a.Move? && s.threads[a.c].pc == Hello(RoomsSnap)
  {
  }

  lemma StepNotifiedOf(cfg: Config, s: State, a: Action, c: Cid, p: Ptr)
    requires Enabled(cfg, s, a) && AllNotified(s) && Lifecycle.Inv(cfg, s) && Membership.RoomsOk(s.rm)
    requires var s' := Apply(cfg, s, a);
             c in s'.threads && Listening(s'.threads[c].pc) && p in s'.rm.members && p.public
    ensures NotifiedOf(Apply(cfg, s, a), c, p)
  {
    hide Enabled, Apply, Membership.RoomsOk;
    var s', e := Apply(cfg, s, a), Actor(s, a);
    var x := Send(c, RoomCreate(p.id));
    Membership.StepThreads(cfg, s, a);
    StepForward(cfg, s, a);
    if p !in s.rm.members {
      NewRooms(cfg, s, a, p);
    } else if e == c && (a.Accept? || !Listening(s.threads[c].pc)) {
      StartListening(cfg, s, a);
      ListenerStep(cfg, s, a, p);
    } else {
      assert NotifiedOf(s, c, p);
      if CreateDue(s.threads[p.creator], p, x) {
        if p.creator == e {
          assert c in s.table;
          CreatorStep(cfg, s, a, p, x);
        }
      } else if e == c && s.threads[c].pc == Hello(RoomsList) && x in s.threads[c].io.pending {
        ListenerStep(cfg, s, a, p);
      }
    }
  }

  // ---- All reachable states ----------------------------------------------------------------------------------

  ghost predicate Inv(cfg: Config, s: State) {
    Membership.Inv(cfg, s) && Lifecycle.Inv(cfg, s) && Acquainted(s) && AllNotified(s)
  }

  lemma InitInv(cfg: Config)
    ensures Inv(cfg, Init())
  {
    Membership.InitInv(cfg);
    Lifecycle.InitInv(cfg);
  }

  lemma StepAllNotified(cfg: Config, s: State, a: Action)
    requires Enabled(cfg, s, a) && AllNotified(s) && Lifecycle.Inv(cfg, s) && Membership.RoomsOk(s.rm)
    ensures AllNotified(Apply(cfg, s, a))
  {
    hide Enabled, Apply, Membership.RoomsOk, NotifiedOf, Lifecycle.Inv;
    var s' := Apply(cfg, s, a);
    Membership.StepThreads(cfg, s, a);
    forall p | p in s'.rm.members
      ensures p.creator in s'.threads
    {
      if p !in s.rm.members {
        NewRooms(cfg, s, a, p);
      }
    }
    forall c, p | c in s'.threads && Listening(s'.threads[c].pc) && p in s'.rm.members && p.public
      ensures NotifiedOf(s', c, p)
    {
      StepNotifiedOf(cfg, s, a, c, p);
    }
  }

  lemma StepInv(cfg: Config, s: State, a: Action)
    requires Enabled(cfg, s, a) && Inv(cfg, s)
    ensures Inv(cfg, Apply(cfg, s, a))
  {
    hide Enabled, Apply, Lifecycle.Inv, Acquainted, AllNotified, Membership.RoomsOk;
    Membership.StepInv(cfg, s, a);
    Lifecycle.StepInv(cfg, s, a);
    StepAcquainted(cfg, s, a);
    StepAllNotified(cfg, s, a);
  }

  lemma {:induction false} RunInv(cfg: Config, run: seq<State>)
    requires IsRun(cfg, run)
    ensures Inv(cfg, run[|run| - 1])
  {
    hide Inv, Enabled, Apply;
    InitInv(cfg);
    if |run| > 1 {
      RunPrefix(cfg, run);
      RunInv(cfg, run[..|run| - 1]);
      var a :| Enabled(cfg, run[|run| - 2], a) && run[|run| - 1] == Apply(cfg, run[|run| - 2], a);
      StepInv(cfg, run[|run| - 2], a);
    }
  }

  // onJoin has returned and RemoveClient has not run.
  predicate Joined(pc: Pc) {
    Lifecycle.Present(pc) && (pc.Hello? ==> pc.h.RoomsSnap? || pc.h.RoomsList?)
  }

  lemma ReachableInv(cfg: Config, s: State)
    requires Reachable(cfg, s)
    ensures Inv(cfg, s)
  {
    hide Inv;
    var run :| IsRun(cfg, run) && run[|run| - 1] == s;
    RunInv(cfg, run);
  }

  lemma Learns(s: State, c: Cid, d: Cid)
    requires Acquainted(s) && c in s.threads && d in s.threads && c in s.table && d in s.table && c != d
    requires Joined(s.threads[c].pc) && !s.threads[c].failed.join
    requires Joined(s.threads[d].pc) && !s.threads[d].failed.join
    ensures Send(c, UserJoin(d)) in s.sent
  {
    assert Told(s.sent, s.threads[c], s.threads[d], Send(c, UserJoin(d)));
  }

  // In every interleaving, two connections whose onJoin returned without an error and that are still in the
  // client table have each been sent the arrival of the other.
  lemma MutualKnowledge(cfg: Config, s: State, c: Cid, d: Cid)
    requires Reachable(cfg, s) && c in s.threads && d in s.threads && c != d
    requires Joined(s.threads[c].pc) && !s.threads[c].failed.join
    requires Joined(s.threads[d].pc) && !s.threads[d].failed.join
    ensures Send(c, UserJoin(d)) in s.sent && Send(d, UserJoin(c)) in s.sent
  {
    ReachableInv(cfg, s);
    hide Membership.Inv, Reachable, Acquainted;
    assert c in s.table && d in s.table;
    Learns(s, c, d);
    Learns(s, d, c);
  }

  // No public room is ever missed: whatever the interleaving of connecting and creating, a connection still in
  // the client table whose SendPublicRooms returned without an error has been sent every public room whose
  // create broadcast is over.
  lemma NoPublicRoomMissed(cfg: Config, s: State, c: Cid, p: Ptr)
    requires Reachable(cfg, s) && c in s.threads
    requires Listening(s.threads[c].pc) && s.threads[c].pc != Hello(RoomsList) && !s.threads[c].failed.list
    requires p in s.rm.members && p.public
    requires p.creator in s.threads ==>
               s.threads[p.creator].pc != InRoom(CreateSnap(p)) && s.threads[p.creator].pc != InRoom(CreateCast(p))
    ensures Send(c, RoomCreate(p.id)) in s.sent
  {
    ReachableInv(cfg, s);
    assert NotifiedOf(s, c, p);
  }
}
