// Nothing is made up: in every interleaving, whatever is sent to a connection is about somebody or something that is or
// was there, and concerns it.
module ProtocolGenuine {
  import opened ConnSpec
  import opened Protocol
  import Membership = ProtocolMembership
  import Lifecycle = ProtocolLifecycle
  import Presence = ProtocolPresence
  import Leak = ProtocolLeak
  import Telling = ProtocolTelling
  import Arrivals = ProtocolArrivals

  // Some connection has logged in as u, and c has not.
  ghost predicate OtherUser(s: State, c: Cid, u: User) {
    && Telling.Started(s, c) && s.threads[c].user != u
    && exists d :: Telling.Started(s, d) && s.threads[d].user == u
  }

  predicate Reached(s: State, d: Cid, level: int) {
    d in s.threads && d <= s.nextId && Arrivals.Level(s.threads[d].pc) >= level
  }

  predicate There(s: State, c: Cid) {
    c in s.threads && c <= s.nextId
  }

  // A message that its receiver may be sent, now or later.
  ghost predicate Genuine(cfg: Config, s: State, x: Send) {
    && There(s, x.to)
    && match x.ev
       case Challenge => cfg.auth
       case AuthPass => cfg.auth
       case AuthJoin(u) => OtherUser(s, x.to, u)
       case AuthLeft(u) => OtherUser(s, x.to, u)
       case UserJoin(d) => d != x.to && Reached(s, d, 1)
       case UserLeft(d) => d != x.to && Reached(s, d, 6)
       case RoomCreate(id) => id in s.rm.table && (s.rm.table[id].public || s.rm.table[id].creator == x.to)
       case RoomJoin(d, id) => id in s.rm.table && There(s, d)
       case RoomLeft(d, id) => id in s.rm.table && There(s, d)
  }

  predicate Queued(t: Thread, x: Send) {
    x in t.io.pending || x in t.io.later
  }

  // x has been sent, or is about to be.
  ghost predicate Said(s: State, x: Send) {
    x in s.sent || exists e :: e in s.threads && Queued(s.threads[e], x)
  }

  ghost predicate AllGenuine(cfg: Config, s: State) {
    forall x :: Said(s, x) ==> Genuine(cfg, s, x)
  }

  ghost predicate Inv(cfg: Config, s: State) {
    && Membership.Inv(cfg, s) && Presence.Inv(cfg, s) && Arrivals.AllSay(s) && AllGenuine(cfg, s)
    && forall e :: e in s.threads ==> Named(s.threads[e], e)
  }

  // What a thread is about to say fits where it is.
  predicate Named(t: Thread, e: Cid) {
    && (t.pc.InRoom? && (t.pc.r.CreateSnap? || t.pc.r.CreateCast?) ==> t.pc.r.room.creator == e)
    && (t.pc.InRoom? && t.pc.r.CreateSnap? ==> t.pc.r.room.public)
  }

  // ---- What is genuine stays so ------------------------------------------------------------------------------------

  lemma ThereStays(cfg: Config, s: State, a: Action, s': State, c: Cid)
    requires Enabled(cfg, s, a) && s' == Apply(cfg, s, a) && There(s, c)
    ensures There(s', c)
  {
    hide Apply, Enabled;
    Membership.StepThreads(cfg, s, a);
  }

  lemma OtherUserStays(cfg: Config, s: State, a: Action, s': State, c: Cid, u: User)
    requires Presence.Inv(cfg, s) && Enabled(cfg, s, a) && s' == Apply(cfg, s, a) && OtherUser(s, c, u)
    ensures OtherUser(s', c, u)
  {
    hide Apply, Enabled, Presence.Inv;
    var d :| Telling.Started(s, d) && s.threads[d].user == u;
    Telling.StaysStarted(cfg, s, a, s', c);
    Telling.StaysStarted(cfg, s, a, s', d);
  }

  lemma GenuineStays(cfg: Config, s: State, a: Action, s': State, x: Send)
    requires Membership.Inv(cfg, s) && Presence.Inv(cfg, s) && Arrivals.AllSay(s)
    requires Enabled(cfg, s, a) && s' == Apply(cfg, s, a) && Genuine(cfg, s, x)
    ensures Genuine(cfg, s', x)
  {
    hide Apply, Enabled, Presence.Inv, Arrivals.AllSay, Arrivals.Level, OtherUser, Membership.Inv;
    ThereStays(cfg, s, a, s', x.to);
    Membership.StepOwn(cfg, s, a);
    match x.ev {
      case AuthJoin(u) => OtherUserStays(cfg, s, a, s', x.to, u);
      case AuthLeft(u) => OtherUserStays(cfg, s, a, s', x.to, u);
      case UserJoin(d) =>
        ThereStays(cfg, s, a, s', d);
        Arrivals.StepLevel(cfg, s, a, s', d);
      case UserLeft(d) =>
        ThereStays(cfg, s, a, s', d);
        Arrivals.StepLevel(cfg, s, a, s', d);
      case RoomJoin(d, id) => ThereStays(cfg, s, a, s', d);
      case RoomLeft(d, id) => ThereStays(cfg, s, a, s', d);
      case _ =>
    }
  }

  // ---- What a move adds --------------------------------------------------------------------------------------------

  // What a thread gets to send by a move from its program counter.
  predicate Offered(s: State, e: Cid, x: Send)
    requires e in s.threads
  {
    var t := s.threads[e];
    match t.pc
    case Hello(h) =>
      (match h
       case AuthSnap(_) => x.to == e && x.ev.AuthJoin? && x.ev.user in s.conns.users && x.ev.user != t.user
       case AuthList(_) => x == Send(e, AuthPass)
       case AuthCastSnap => x.ev == AuthJoin(t.user) && x.to in OtherClients(s.conns, t.user)
       case AuthCast => x == Send(e, AuthPass)
       case JoinSnap => x.to == e && x.ev.UserJoin? && x.ev.who in s.table && x.ev.who != e
       case JoinCastSnap => x.ev == UserJoin(e) && x.to in s.table && x.to != e
       case RoomsSnap =>
         x.to == e && x.ev.RoomCreate? && x.ev.room in s.rm.table && s.rm.table[x.ev.room].public
       case _ => false)
    case Creating(id, public) => !public && id !in s.rm.table && x == Send(e, RoomCreate(id))
    case InRoom(r) =>
      (match r
       case CreateSnap(p) => x.ev == RoomCreate(p.id) && x.to in s.table
       case EnterLock(p) =>
         && p in s.rm.members
         && (|| (x.ev == RoomJoin(e, p.id) && (x.to == e || x.to in s.rm.members[p]))
             || (x.to == e && x.ev.RoomJoin? && x.ev.room == p.id && x.ev.who in s.rm.members[p]))
       case LeaveLock(p, _) => p in s.rm.members && x.ev == RoomLeft(e, p.id) && x.to in s.rm.members[p]
       case _ => false)
    case Bye(b) =>
      || (b.LeftSnap? && x.ev == UserLeft(e) && x.to in s.table && x.to != e)
      || (b.RevokeSnap? && x.ev == AuthLeft(t.user) && x.to in OtherClients(s.conns, t.user))
    case _ => false
  }

  lemma HelloOffers(s: State, e: Cid, h: HelloPc, x: Send)
    requires e in s.threads && s.threads[e].pc == Hello(h)
    ensures Queued(OnHello(s, e, h).threads[e], x) ==> Queued(s.threads[e], x) || Offered(s, e, x)
  {
    hide Fan, TellUsers, TellClients, TellRooms, OtherClients;
  }

  lemma CreateOffers(s: State, e: Cid, x: Send)
    requires e in s.threads && s.threads[e].pc.Creating?
    ensures var pc := s.threads[e].pc;
            Queued(OnCreate(e, s.threads[e], s.rm, pc.id, pc.public).t, x) ==>
              Queued(s.threads[e], x) || Offered(s, e, x)
  {
  }

  lemma RoomOffers(cfg: Config, s: State, e: Cid, r: RoomPc, pick: Ptr, x: Send)
    requires e in s.threads && s.threads[e].pc == InRoom(r) && CanMove(cfg, s.threads[e].mem, s.rm, r, pick)
    ensures Queued(OnRoom(cfg, e, s.threads[e], s.rm, s.table, r, pick).t, x) ==>
              Queued(s.threads[e], x) || Offered(s, e, x)
  {
    hide Fan, TellMembers;
  }

  lemma ByeOffers(cfg: Config, s: State, e: Cid, b: ByePc, pick: Ptr, x: Send)
    requires e in s.threads && s.threads[e].pc == Bye(b)
    ensures Queued(OnBye(cfg, s, e, b, pick).threads[e], x) ==> Queued(s.threads[e], x) || Offered(s, e, x)
  {
    hide Fan, RemoveAuth, AnyLeft, OtherClients;
  }

  lemma StepOffers(cfg: Config, s: State, a: Action, x: Send)
    requires Enabled(cfg, s, a) && !a.Accept?
    requires a.c in Apply(cfg, s, a).threads && Queued(Apply(cfg, s, a).threads[a.c], x)
    ensures Queued(s.threads[a.c], x) || (a.Move? && Offered(s, a.c, x))
  {
    hide OnHello, OnBye, OnRoom, OnCreate, WriterPending, SetAuth, First, Offered;
    if a.Move? {
      match s.threads[a.c].pc {
        case Hello(h) => HelloOffers(s, a.c, h, x);
        case Creating(_, _) => CreateOffers(s, a.c, x);
        case InRoom(r) => RoomOffers(cfg, s, a.c, r, a.pick, x);
        case Bye(b) => ByeOffers(cfg, s, a.c, b, a.pick, x);
        case _ =>
      }
    }
  }

  // ---- And it is genuine -------------------------------------------------------------------------------------------

  lemma Registered(cfg: Config, s: State, c: Cid)
    requires Lifecycle.Inv(cfg, s) && c in s.conns.clients
    ensures Telling.Started(s, c) && s.conns.clients[c] == s.threads[c].user
  {
    assert Lifecycle.Placed(cfg, s.table, s.conns, s.readers, c, s.threads[c]);
  }

  lemma Connected(cfg: Config, s: State, u: User)
    requires Lifecycle.Inv(cfg, s) && u in s.conns.users
    ensures exists d :: Telling.Started(s, d) && s.threads[d].user == u
  {
    var d := Pick(s.conns.users[u]);
    Registered(cfg, s, d);
  }

  lemma InTable(cfg: Config, s: State, c: Cid)
    requires Lifecycle.Inv(cfg, s) && c in s.table
    ensures There(s, c) && Reached(s, c, 1)
  {
    assert Lifecycle.Placed(cfg, s.table, s.conns, s.readers, c, s.threads[c]);
  }

  lemma OwnStarted(cfg: Config, s: State, e: Cid)
    requires Lifecycle.Inv(cfg, s) && e in s.threads && s.threads[e].pc != Hello(Credentials)
    ensures Telling.Started(s, e)
  {
  }

  lemma HelloGenuine(cfg: Config, s: State, e: Cid, x: Send)
    requires Lifecycle.Inv(cfg, s) && e in s.threads && s.threads[e].pc.Hello? && Offered(s, e, x)
    ensures Genuine(cfg, s, x)
  {
    OwnStarted(cfg, s, e);
    assert Lifecycle.Placed(cfg, s.table, s.conns, s.readers, e, s.threads[e]);
    match x.ev {
      case AuthJoin(u) =>
        if s.threads[e].pc.h.AuthSnap? {
          Connected(cfg, s, u);
        } else {
          Registered(cfg, s, x.to);
        }
      case UserJoin(d) =>
        InTable(cfg, s, if s.threads[e].pc.h.JoinSnap? then d else x.to);
      case _ =>
    }
  }

  lemma RoomKnown(cfg: Config, s: State, e: Cid, c: Cid)
    requires Membership.Inv(cfg, s) && e in s.threads && s.threads[e].pc.InRoom? && !s.threads[e].pc.r.LeaveCast?
    ensures var p := s.threads[e].pc.r.room;
            p in s.rm.members && p.id in s.rm.table && s.rm.table[p.id] == p && (c in s.rm.members[p] ==> There(s, c))
  {
    assert Membership.Own(cfg, s.rm, e, s.threads[e].mem, s.threads[e].pc);
    hide Membership.MemberOk, Membership.ThreadOk;
  }

  lemma RoomGenuine(cfg: Config, s: State, e: Cid, x: Send)
    requires Membership.Inv(cfg, s) && Lifecycle.Inv(cfg, s) && e in s.threads && s.threads[e].pc.InRoom?
    requires Offered(s, e, x) && Named(s.threads[e], e)
    ensures Genuine(cfg, s, x)
  {
    hide Membership.Inv, Lifecycle.Inv;
    RoomKnown(cfg, s, e, x.to);
    OwnThere(cfg, s, e);
    if s.threads[e].pc.r.CreateSnap? {
      InTable(cfg, s, x.to);
    } else if x.ev.RoomJoin? {
      RoomKnown(cfg, s, e, x.ev.who);
    }
  }

  lemma OwnThere(cfg: Config, s: State, e: Cid)
    requires Lifecycle.Inv(cfg, s) && e in s.threads
    ensures There(s, e)
  {
  }

  lemma ByeGenuine(cfg: Config, s: State, a: Action, s': State, x: Send)
    requires Lifecycle.Inv(cfg, s) && Enabled(cfg, s, a) && s' == Apply(cfg, s, a)
    requires a.Move? && s.threads[a.c].pc.Bye? && Offered(s, a.c, x)
    ensures x.ev.AuthLeft? ==> OtherUser(s, x.to, x.ev.user)
    ensures x.ev.UserLeft? ==> There(s', x.to) && x.ev.who != x.to && Reached(s', x.ev.who, 6)
    ensures x.ev.AuthLeft? || x.ev.UserLeft?
  {
    OwnStarted(cfg, s, a.c);
    if x.ev.UserLeft? {
      InTable(cfg, s, x.to);
    } else {
      Registered(cfg, s, x.to);
      hide Apply, Enabled;
    }
  }

  lemma CreateGenuine(cfg: Config, s: State, a: Action, s': State, x: Send)
    requires Lifecycle.Inv(cfg, s) && Enabled(cfg, s, a) && s' == Apply(cfg, s, a)
    requires a.Move? && s.threads[a.c].pc.Creating? && Offered(s, a.c, x)
    ensures Genuine(cfg, s', x)
  {
    hide Lifecycle.Placed, Grouped;
  }

  lemma OfferedGenuine(cfg: Config, s: State, a: Action, s': State, x: Send)
    requires Inv(cfg, s) && Enabled(cfg, s, a) && s' == Apply(cfg, s, a)
    requires a.Move? && a.c in s.threads && Offered(s, a.c, x)
    ensures Genuine(cfg, s', x)
  {
    hide Apply, Enabled, Offered, Membership.Inv, Lifecycle.Inv, Arrivals.AllSay, Named, AllGenuine, OtherUser;
    assert Named(s.threads[a.c], a.c);
    var pc := s.threads[a.c].pc;
    if pc.Creating? {
      CreateGenuine(cfg, s, a, s', x);
    } else if pc.Bye? {
      ByeGenuine(cfg, s, a, s', x);
      if x.ev.AuthLeft? {
        OtherUserStays(cfg, s, a, s', x.to, x.ev.user);
        OtherUserThere(s', x.to, x.ev.user);
      }
    } else {
      if pc.Hello? {
        HelloGenuine(cfg, s, a.c, x);
      } else {
        InRooms(s, a.c, x);
        RoomGenuine(cfg, s, a.c, x);
      }
      GenuineStays(cfg, s, a, s', x);
    }
  }

  lemma OtherUserThere(s: State, c: Cid, u: User)
    requires OtherUser(s, c, u)
    ensures There(s, c)
  {
  }

  lemma InRooms(s: State, e: Cid, x: Send)
    requires e in s.threads && Offered(s, e, x)
    ensures s.threads[e].pc.Hello? || s.threads[e].pc.Creating? || s.threads[e].pc.InRoom? || s.threads[e].pc.Bye?
  {
  }

  // ---- Every step, every run ---------------------------------------------------------------------------------------

  lemma NamedStep(cfg: Config, s: State, a: Action)
    requires Enabled(cfg, s, a) && !a.Accept? && Named(s.threads[a.c], a.c)
    ensures a.c in Apply(cfg, s, a).threads && Named(Apply(cfg, s, a).threads[a.c], a.c)
  {
    hide OnHello, OnBye, WriterPending, Fan, TellMembers, SetAuth, First;
    Membership.StepThreads(cfg, s, a);
    if a.Move? && s.threads[a.c].pc.Hello? {
      Membership.QuietHello(s, a.c, s.threads[a.c].pc.h);
    } else if a.Move? && s.threads[a.c].pc.Bye? {
      hide OnRoom, OnCreate, OnLookup;
      ByeNamed(cfg, s, a.c, s.threads[a.c].pc.b, a.pick);
    } else {
      hide OnRequest;
    }
  }

  lemma ByeNamed(cfg: Config, s: State, e: Cid, b: ByePc, pick: Ptr)
    requires e in s.threads && s.threads[e].pc == Bye(b)
    ensures Named(OnBye(cfg, s, e, b, pick).threads[e], e)
  {
    hide Fan, RemoveAuth, AnyLeft, OtherClients;
  }

  lemma FreshGenuine(cfg: Config, s: State, s': State, x: Send)
    requires Enabled(cfg, s, Accept) && s' == Apply(cfg, s, Accept)
    requires var c := s.nextId + 1; Queued(Fresh(cfg, c), x)
    ensures Genuine(cfg, s', x)
  {
  }

  lemma FreshNamed(cfg: Config, c: Cid)
    ensures Named(Fresh(cfg, c), c)
  {
  }

  lemma StepSaid(cfg: Config, s: State, a: Action, s': State, x: Send)
    requires Enabled(cfg, s, a) && s' == Apply(cfg, s, a) && Said(s', x) && !Said(s, x)
    ensures Actor(s, a) in s'.threads && Queued(s'.threads[Actor(s, a)], x)
  {
    hide Apply, Enabled, Queued;
    Membership.NewThread(cfg, s, a, s');
    Membership.StepThreads(cfg, s, a);
    Telling.SentGrows(cfg, s, a);
    if a.Deliver? && a.x == x {
      IsQueued(s.threads[a.c], x);
    }
  }

  lemma IsQueued(t: Thread, x: Send)
    ensures x in t.io.pending ==> Queued(t, x)
  {
  }

  lemma StepGenuine(cfg: Config, s: State, a: Action, s': State, x: Send)
    requires Inv(cfg, s) && Enabled(cfg, s, a) && s' == Apply(cfg, s, a) && Said(s', x)
    ensures Genuine(cfg, s', x)
  {
    hide Apply, Enabled, Genuine, Offered, Membership.Inv, Presence.Inv, Arrivals.AllSay, Named, Queued, Said;
    if Said(s, x) {
      GenuineStays(cfg, s, a, s', x);
    } else {
      StepSaid(cfg, s, a, s', x);
      Membership.NewThread(cfg, s, a, s');
      Membership.StepThreads(cfg, s, a);
      if a.Accept? {
        FreshGenuine(cfg, s, s', x);
      } else {
        NotQueued(s, a.c, x);
        StepOffers(cfg, s, a, x);
        OfferedGenuine(cfg, s, a, s', x);
      }
    }
  }

  lemma NotQueued(s: State, e: Cid, x: Send)
    requires !Said(s, x)
    ensures e in s.threads ==> !Queued(s.threads[e], x)
  {
  }

  lemma StepInv(cfg: Config, s: State, a: Action, s': State)
    requires Inv(cfg, s) && Enabled(cfg, s, a) && s' == Apply(cfg, s, a)
    ensures Inv(cfg, s')
  {
    hide Apply, Enabled, Genuine, Membership.Inv, Presence.Inv, Arrivals.AllSay, Named, Said;
    Membership.StepInv(cfg, s, a);
    Presence.StepInv(cfg, s, a);
    Arrivals.StepSays(cfg, s, a, s');
    Membership.StepThreads(cfg, s, a);
    Membership.NewThread(cfg, s, a, s');
    if a.Accept? {
      FreshNamed(cfg, s.nextId + 1);
    } else {
      NamedStep(cfg, s, a);
    }
    forall x | Said(s', x)
      ensures Genuine(cfg, s', x)
    {
      StepGenuine(cfg, s, a, s', x);
    }
  }

  lemma InitInv(cfg: Config)
    ensures Inv(cfg, Init())
  {
    Membership.InitInv(cfg);
    Presence.InitInv(cfg);
  }

  lemma {:induction false} RunInv(cfg: Config, run: seq<State>)
    requires IsRun(cfg, run)
    ensures Inv(cfg, run[|run| - 1])
  {
    hide Inv, Enabled, Apply;
    InitInv(cfg);
    if |run| > 1 {
      RunPrefix(cfg, run);
      RunInv(cfg, run[..|run| - 1]);
      var a :| Enabled(cfg, run[|run| - 2], a) && run[|run| - 1] == Apply(cfg, run[|run| - 2], a);
      StepInv(cfg, run[|run| - 2], a, run[|run| - 1]);
    }
  }

  // In every interleaving, a connection is told only of users that somebody else has logged in as, of other
  // connections that came, and went if it is told so, of rooms that are public or that it created, and of joins and
  // leaves of rooms that exist.
  lemma NothingMadeUp(cfg: Config, s: State, x: Send)
    requires Reachable(cfg, s) && x in s.sent
    ensures Genuine(cfg, s, x)
  {
    var run: seq<State> :| IsRun(cfg, run) && run[|run| - 1] == s;
    RunInv(cfg, run);
    hide Genuine;
  }
}
