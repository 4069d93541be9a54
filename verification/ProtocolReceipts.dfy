// What a connection is sent exactly once, in every interleaving: its challenge, its pass, and the private rooms it
// creates.
module ProtocolReceipts {
  import opened ConnSpec
  import opened Protocol
  import Membership = ProtocolMembership
  import Lifecycle = ProtocolLifecycle
  import Presence = ProtocolPresence
  import Telling = ProtocolTelling
  import Arrivals = ProtocolArrivals
  import Genuine = ProtocolGenuine

  predicate Single(ev: Event) {
    ev.Challenge? || ev.AuthPass? || ev.RoomCreate?
  }

  // Where a thread can be while it has x to send.
  predicate Turn(rm: Rooms, t: Thread, e: Cid, x: Send) {
    match x.ev
    case Challenge => t.pc == Hello(Credentials) && x.to == e && t.io.pending[x] == 1
    case AuthPass => t.pc == Hello(Passing) && x.to == e && t.io.pending[x] == 1
    case RoomCreate(id) =>
      || (t.pc == Hello(RoomsList) && x.to == e && id in rm.table && rm.table[id].public)
      || (t.pc.InRoom? && t.pc.r.CreateCast? && t.pc.r.room.id == id
          && (!t.pc.r.room.public ==> x.to == e && t.io.pending[x] == 1))
    case _ => true
  }

  predicate Turns(rm: Rooms, t: Thread, e: Cid) {
    && (forall x :: x in t.io.pending ==> Turn(rm, t, e, x))
    && (forall x :: x in t.io.later ==> !Single(x.ev))
    && (t.pc == Hello(Credentials) ==> forall x :: x in t.io.pending ==> x == Send(e, Challenge))
    && (t.pc == Hello(Passing) ==> forall x :: x in t.io.pending ==> x == Send(e, AuthPass))
  }

  lemma TurnsKept(rm: Rooms, rm': Rooms, t: Thread, e: Cid)
    requires Turns(rm, t, e) && forall id :: id in rm.table ==> id in rm'.table && rm'.table[id] == rm.table[id]
    ensures Turns(rm', t, e)
  {
    forall x | x in t.io.pending
      ensures Turn(rm', t, e, x)
    {
      assert Turn(rm, t, e, x);
    }
  }

  // A thread that sends nothing of the kind, before or after.
  lemma StillTurns(rm: Rooms, t: Thread, t': Thread, e: Cid)
    requires Turns(rm, t, e) && t'.io == t.io
    requires forall x :: x in t.io.pending ==> !Single(x.ev)
    requires t'.pc == Hello(Credentials) || t'.pc == Hello(Passing) ==> t.io.pending == multiset{}
    ensures Turns(rm, t', e)
  {
  }

  lemma Nothing(rm: Rooms, t: Thread, e: Cid)
    requires Turns(rm, t, e) && (t.pc.Hello? ==> !t.pc.h.Credentials? && !t.pc.h.Passing? && !t.pc.h.RoomsList?)
    requires t.pc.InRoom? ==> !t.pc.r.CreateCast?
    ensures forall x :: x in t.io.pending ==> !Single(x.ev)
    ensures forall x :: x in t.io.later ==> !Single(x.ev)
  {
    forall x | x in t.io.pending
      ensures !Single(x.ev)
    {
      assert Turn(rm, t, e, x);
    }
  }

  lemma NoSingles(rm: Rooms, t: Thread, e: Cid)
    requires forall x :: x in t.io.pending || x in t.io.later ==> !Single(x.ev)
    requires t.pc != Hello(Credentials) && t.pc != Hello(Passing)
    ensures Turns(rm, t, e)
  {
  }

  lemma PassTurns(rm: Rooms, t: Thread, e: Cid)
    requires t.pc == Hello(Passing) && t.io == One(Send(e, AuthPass))
    ensures Turns(rm, t, e)
  {
  }

  lemma ListTurns(s: State, e: Cid)
    requires e in s.threads && s.threads[e].pc == Hello(RoomsSnap)
    ensures Turns(s.rm, OnHello(s, e, RoomsSnap).threads[e], e)
  {
    hide TellRooms;
  }

  lemma HelloPc(s: State, e: Cid, h: HelloPc)
    requires e in s.threads && s.threads[e].pc == Hello(h) && !h.Credentials?
    ensures e in OnHello(s, e, h).threads
    ensures var t' := OnHello(s, e, h).threads[e];
            t'.pc != Hello(Credentials) && (t'.pc == Hello(Passing) ==> t'.io == One(Send(e, AuthPass)))
  {
    hide Fan, TellUsers, TellClients, TellRooms, Others, OtherClients;
  }

  lemma HelloTurns(s: State, e: Cid, h: HelloPc)
    requires e in s.threads && s.threads[e].pc == Hello(h) && !h.Credentials? && Turns(s.rm, s.threads[e], e)
    requires Sending(s.threads[e].pc) ==> s.threads[e].io.pending == multiset{}
    ensures Turns(s.rm, OnHello(s, e, h).threads[e], e)
  {
    hide OnHello, Turns, Turn;
    HelloPc(s, e, h);
    var t, t' := s.threads[e], OnHello(s, e, h).threads[e];
    if h.RoomsSnap? {
      ListTurns(s, e);
    } else if t'.pc == Hello(Passing) {
      PassTurns(s.rm, t', e);
    } else {
      NothingLater(s.rm, t, e);
      if !h.Passing? && !h.RoomsList? {
        Nothing(s.rm, t, e);
      }
      forall x | Genuine.Queued(t', x)
        ensures !Single(x.ev)
      {
        HelloOffers(s, e, h, x);
      }
      NoSingles(s.rm, t', e);
    }
  }

  lemma HelloOffers(s: State, e: Cid, h: HelloPc, x: Send)
    requires e in s.threads && s.threads[e].pc == Hello(h) && !h.RoomsSnap?
    requires OnHello(s, e, h).threads[e].pc != Hello(Passing)
    ensures Genuine.Queued(OnHello(s, e, h).threads[e], x) ==> Genuine.Queued(s.threads[e], x) || !Single(x.ev)
  {
    hide Fan, TellUsers, TellClients, TellRooms, Others, OtherClients;
  }

  lemma NothingLater(rm: Rooms, t: Thread, e: Cid)
    requires Turns(rm, t, e)
    ensures forall x :: x in t.io.later ==> !Single(x.ev)
  {
  }

  lemma CastTurns(s: State, e: Cid, p: Ptr)
    requires e in s.threads && s.threads[e].pc == InRoom(CreateSnap(p)) && p.public
    ensures var t := s.threads[e];
            Turns(s.rm, t.(pc := InRoom(CreateCast(p)), io := Io(Fan(s.table, RoomCreate(p.id)), multiset{})), e)
  {
    hide Fan;
  }

  lemma RoomTurns(cfg: Config, s: State, e: Cid, r: RoomPc, pick: Ptr)
    requires e in s.threads && s.threads[e].pc == InRoom(r) && CanMove(cfg, s.threads[e].mem, s.rm, r, pick)
    requires Sending(s.threads[e].pc) ==> s.threads[e].io.pending == multiset{}
    requires Turns(s.rm, s.threads[e], e) && Genuine.Named(s.threads[e], e)
    ensures Turns(s.rm, OnRoom(cfg, e, s.threads[e], s.rm, s.table, r, pick).t, e)
  {
    if r.CreateSnap? {
      hide Turns;
      CastTurns(s, e, r.room);
    } else {
      hide OnRoom, Turns, Turn;
      var t, t' := s.threads[e], OnRoom(cfg, e, s.threads[e], s.rm, s.table, r, pick).t;
      NothingLater(s.rm, t, e);
      if !r.CreateCast? {
        Nothing(s.rm, t, e);
      }
      Telling.RoomQuiet(cfg, e, t, s.rm, s.table, r, pick);
      forall x | Genuine.Queued(t', x)
        ensures !Single(x.ev)
      {
        Genuine.RoomOffers(cfg, s, e, r, pick, x);
      }
      NoSingles(s.rm, t', e);
    }
  }

  lemma ByeTurns(cfg: Config, s: State, e: Cid, b: ByePc, pick: Ptr)
    requires e in s.threads && s.threads[e].pc == Bye(b) && Turns(s.rm, s.threads[e], e)
    ensures Turns(s.rm, OnBye(cfg, s, e, b, pick).threads[e], e)
  {
    hide Fan, RemoveAuth, AnyLeft, OtherClients;
  }

  lemma SentIo(t: Thread, y: Send, ok: bool)
    ensures var t' := OnSent(t, y, ok);
            if t'.pc == t.pc then t'.io == t.io.(pending := t.io.pending - multiset{y})
            else t'.io == NO_IO && t'.pc != Hello(Credentials) && t'.pc != Hello(Passing)
  {
  }

  lemma SentTurns(rm: Rooms, t: Thread, e: Cid, y: Send, ok: bool)
    requires Turns(rm, t, e)
    ensures Turns(rm, OnSent(t, y, ok), e)
  {
    hide OnSent, Sending;
    SentIo(t, y, ok);
    var t' := OnSent(t, y, ok);
    forall x | x in t'.io.pending
      ensures Turn(rm, t', e, x)
    {
      assert Turn(rm, t, e, x);
    }
    hide Turn;
  }

  lemma CreateTurns(t: Thread, e: Cid, rm: Rooms, id: string, public: bool)
    requires t.pc == Creating(id, public) && Turns(rm, t, e)
    ensures var s := OnCreate(e, t, rm, id, public);
            Turns(rm, s.t, e)
  {
    Nothing(rm, t, e);
    hide Turn;
    var t' := OnCreate(e, t, rm, id, public).t;
    if t'.io == t.io {
      StillTurns(rm, t, t', e);
    } else {
      OneTurns(rm, t', e, id);
    }
  }

  lemma OneTurns(rm: Rooms, t: Thread, e: Cid, id: string)
    requires t.io == One(Send(e, RoomCreate(id))) && t.pc.InRoom? && t.pc.r.CreateCast? && t.pc.r.room.id == id
    ensures Turns(rm, t, e)
  {
  }

  lemma OwnTurns(cfg: Config, s: State, a: Action, s': State)
    requires Enabled(cfg, s, a) && s' == Apply(cfg, s, a) && !a.Accept?
    requires Turns(s.rm, s.threads[a.c], a.c) && Genuine.Named(s.threads[a.c], a.c)
    ensures a.c in s'.threads && Turns(s.rm, s'.threads[a.c], a.c)
  {
    hide OnHello, OnRoom, OnBye, OnLookup, OnCreate, OnSent, WriterPending, Turns, SetAuth, First;
    Membership.StepThreads(cfg, s, a);
    var t := s.threads[a.c];
    if a.Deliver? {
      SentTurns(s.rm, t, a.c, a.x, a.ok);
    } else if a.Move? && t.pc.Hello? {
      HelloTurns(s, a.c, t.pc.h);
    } else if a.Move? && t.pc.Creating? {
      CreateTurns(t, a.c, s.rm, t.pc.id, t.pc.public);
    } else if a.Move? && t.pc.InRoom? {
      RoomTurns(cfg, s, a.c, t.pc.r, a.pick);
    } else if a.Move? && t.pc.Bye? {
      ByeTurns(cfg, s, a.c, t.pc.b, a.pick);
    } else if a.Move? {
      LookupTurns(t, a.c, s.rm, t.pc.id, t.pc.join);
    } else {
      StandingTurns(cfg, s, a, s');
    }
  }

  lemma LookupTurns(t: Thread, e: Cid, rm: Rooms, id: string, join: bool)
    requires t.pc == Looking(id, join) && Turns(rm, t, e)
    ensures Turns(rm, OnLookup(t, rm, id, join), e)
  {
    Nothing(rm, t, e);
    hide Turn;
    StillTurns(rm, t, OnLookup(t, rm, id, join), e);
  }

  lemma StandingTurns(cfg: Config, s: State, a: Action, s': State)
    requires Enabled(cfg, s, a) && s' == Apply(cfg, s, a) && (a.Login? || a.Fail? || a.Ask? || a.Hangup?)
    requires Turns(s.rm, s.threads[a.c], a.c)
    ensures a.c in s'.threads && Turns(s.rm, s'.threads[a.c], a.c)
  {
    if s.threads[a.c].pc != Hello(Credentials) {
      Nothing(s.rm, s.threads[a.c], a.c);
    }
    hide Turns, SetAuth, First;
    StillTurns(s.rm, s.threads[a.c], s'.threads[a.c], a.c);
  }

  ghost predicate Inv(cfg: Config, s: State) {
    Genuine.Inv(cfg, s) && forall e :: e in s.threads ==> Turns(s.rm, s.threads[e], e)
  }

  lemma FreshTurns(cfg: Config, rm: Rooms, c: Cid)
    ensures Turns(rm, Fresh(cfg, c), c)
  {
  }

  lemma TablesKept(cfg: Config, s: State, a: Action, s': State)
    requires Genuine.Inv(cfg, s) && Enabled(cfg, s, a) && s' == Apply(cfg, s, a)
    ensures forall id :: id in s.rm.table ==> id in s'.rm.table && s'.rm.table[id] == s.rm.table[id]
  {
    hide Membership.RoomsOk, Membership.Own;
    Membership.StepOwn(cfg, s, a);
  }

  lemma StepInv(cfg: Config, s: State, a: Action, s': State)
    requires Inv(cfg, s) && Enabled(cfg, s, a) && s' == Apply(cfg, s, a)
    ensures Inv(cfg, s')
  {
    hide Apply, Enabled, Genuine.Inv, Turns;
    Genuine.StepInv(cfg, s, a, s');
    Membership.NewThread(cfg, s, a, s');
    TablesKept(cfg, s, a, s');
    Membership.StepThreads(cfg, s, a);
    if a.Accept? {
      FreshTurns(cfg, s'.rm, s.nextId + 1);
    } else {
      NamedOf(cfg, s, a.c);
      OwnTurns(cfg, s, a, s');
    }
    forall e | e in s'.threads
      ensures Turns(s'.rm, s'.threads[e], e)
    {
      if !(a.Accept? && e == s.nextId + 1) {
        TurnsKept(s.rm, s'.rm, s'.threads[e], e);
      }
    }
  }

  lemma NamedOf(cfg: Config, s: State, e: Cid)
    requires Genuine.Inv(cfg, s) && e in s.threads
    ensures Genuine.Named(s.threads[e], e)
  {
  }

  lemma InitInv(cfg: Config)
    ensures Inv(cfg, Init())
  {
    Genuine.InitInv(cfg);
  }

  lemma {:induction false} RunInv(cfg: Config, run: seq<State>)
    requires IsRun(cfg, run)
    ensures Inv(cfg, run[|run| - 1])
  {
    hide Inv, Enabled, Apply;
    InitInv(cfg);
    if |run| > 1 {
      RunPrefix(cfg, run);
      RunInv(cfg, run[..|run| - 1]);
      var a :| Enabled(cfg, run[|run| - 2], a) && run[|run| - 1] == Apply(cfg, run[|run| - 2], a);
      StepInv(cfg, run[|run| - 2], a, run[|run| - 1]);
    }
  }

  // ---- The account of one message ----------------------------------------------------------------------------------

  // x has been sent, or its receiver's thread is about to.
  function Told(s: State, x: Send): nat {
    s.sent[x] + Arrivals.Waiting(s, x.to, x)
  }

  // A challenge, a pass, or a private room told to its creator.
  predicate Own(rm: Rooms, x: Send) {
    match x.ev
    case Challenge => true
    case AuthPass => true
    case RoomCreate(id) => id in rm.table && !rm.table[id].public && rm.table[id].creator == x.to
    case _ => false
  }

  function Gain(t: Thread, t': Thread, x: Send): nat {
    if x.ev.AuthPass? && t'.pc == Hello(Passing) && t.pc != Hello(Passing) then 1 else 0
  }

  lemma SentTold(rm: Rooms, t: Thread, y: Send, ok: bool, x: Send)
    requires Sending(t.pc) && y in t.io.pending && Turns(rm, t, x.to) && Own(rm, x)
    ensures var t' := OnSent(t, y, ok);
            && t'.io.pending[x] + Arrivals.One(x == y) == t.io.pending[x]
            && Gain(t, t', x) == 0
  {
    assert x in t.io.pending ==> Turn(rm, t, x.to, x);
  }

  lemma HelloTold(s: State, e: Cid, h: HelloPc, x: Send)
    requires e in s.threads && s.threads[e].pc == Hello(h) && !h.Credentials? && Turns(s.rm, s.threads[e], e)
    requires Sending(s.threads[e].pc) ==> s.threads[e].io.pending == multiset{}
    requires Own(s.rm, x) && x.to == e
    ensures var t' := OnHello(s, e, h).threads[e];
            t'.io.pending[x] == s.threads[e].io.pending[x] + Gain(s.threads[e], t', x)
  {
    hide Fan, TellUsers, TellClients, TellRooms, Others, OtherClients, Turns;
    if !h.Passing? && !h.RoomsList? {
      Nothing(s.rm, s.threads[e], e);
    }
  }

  lemma ByeTold(cfg: Config, s: State, e: Cid, b: ByePc, pick: Ptr, x: Send)
    requires e in s.threads && s.threads[e].pc == Bye(b) && Turns(s.rm, s.threads[e], e)
    requires Sending(s.threads[e].pc) ==> s.threads[e].io.pending == multiset{}
    requires Own(s.rm, x) && x.to == e
    ensures var t' := OnBye(cfg, s, e, b, pick).threads[e];
            t'.io.pending[x] == s.threads[e].io.pending[x] && Gain(s.threads[e], t', x) == 0
  {
    hide Fan, RemoveAuth, AnyLeft, OtherClients, Turns;
    Nothing(s.rm, s.threads[e], e);
  }

  // The room of a create in progress is registered, and public when everybody is told.
  lemma CreatedRoom(cfg: Config, s: State, e: Cid)
    requires Genuine.Inv(cfg, s) && e in s.threads && s.threads[e].pc.InRoom?
    requires s.threads[e].pc.r.CreateSnap? || s.threads[e].pc.r.CreateCast?
    ensures var p := s.threads[e].pc.r.room;
            && p.id in s.rm.table && s.rm.table[p.id] == p && p.creator == e
            && (s.threads[e].pc.r.CreateSnap? ==> p.public)
  {
    NamedOf(cfg, s, e);
    hide Genuine.AllGenuine, Presence.Inv, Arrivals.AllSay;
    Genuine.RoomKnown(cfg, s, e, e);
  }

  lemma RoomTold(cfg: Config, s: State, e: Cid, r: RoomPc, pick: Ptr, x: Send)
    requires e in s.threads && s.threads[e].pc == InRoom(r) && CanMove(cfg, s.threads[e].mem, s.rm, r, pick)
    requires Sending(s.threads[e].pc) ==> s.threads[e].io.pending == multiset{}
    requires Turns(s.rm, s.threads[e], e) && Genuine.Inv(cfg, s) && Own(s.rm, x) && x.to == e
    ensures var t' := OnRoom(cfg, e, s.threads[e], s.rm, s.table, r, pick).t;
            t'.io.pending[x] == s.threads[e].io.pending[x] && Gain(s.threads[e], t', x) == 0
  {
    hide Fan, TellMembers, Genuine.Inv, Turns, CanMove;
    if r.CreateSnap? {
      CreatedRoom(cfg, s, e);
    }
    if !r.CreateCast? {
      Nothing(s.rm, s.threads[e], e);
    }
  }

  lemma CreateTold(s: State, e: Cid, x: Send)
    requires e in s.threads && s.threads[e].pc.Creating? && Turns(s.rm, s.threads[e], e) && Own(s.rm, x) && x.to == e
    ensures var t, pc := s.threads[e], s.threads[e].pc;
            var t' := OnCreate(e, t, s.rm, pc.id, pc.public).t;
            t'.io.pending[x] == t.io.pending[x] && Gain(t, t', x) == 0
  {
    hide Turns;
    Nothing(s.rm, s.threads[e], e);
  }

  lemma OwnTold(cfg: Config, s: State, a: Action, s': State, x: Send)
    requires Inv(cfg, s) && Enabled(cfg, s, a) && s' == Apply(cfg, s, a) && !a.Accept?
    requires Own(s.rm, x) && x.to == a.c
    ensures a.c in s.threads && a.c in s'.threads
    ensures var t, t' := s.threads[a.c], s'.threads[a.c];
            && t'.io.pending[x] + Arrivals.One(a.Deliver? && a.x == x) == t.io.pending[x] + Gain(t, t', x)
  {
    hide OnHello, OnRoom, OnBye, OnLookup, OnCreate, OnSent, WriterPending, Turns, SetAuth, First, Genuine.Inv, Own;
    hide Gain;
    Membership.StepThreads(cfg, s, a);
    var t := s.threads[a.c];
    if a.Deliver? {
      SentTold(s.rm, t, a.x, a.ok, x);
    } else if a.Move? && t.pc.Hello? {
      HelloTold(s, a.c, t.pc.h, x);
    } else if a.Move? && t.pc.Creating? {
      CreateTold(s, a.c, x);
    } else if a.Move? && t.pc.InRoom? {
      RoomTold(cfg, s, a.c, t.pc.r, a.pick, x);
    } else if a.Move? && t.pc.Bye? {
      ByeTold(cfg, s, a.c, t.pc.b, a.pick, x);
    } else if a.Move? {
      LookupTold(t, s.rm, t.pc.id, t.pc.join, x);
    } else {
      StandingTold(cfg, s, a, s', x);
    }
  }

  lemma StandingTold(cfg: Config, s: State, a: Action, s': State, x: Send)
    requires Enabled(cfg, s, a) && s' == Apply(cfg, s, a) && (a.Login? || a.Fail? || a.Ask? || a.Hangup?)
    ensures a.c in s'.threads && s'.threads[a.c].io == s.threads[a.c].io
    ensures Gain(s.threads[a.c], s'.threads[a.c], x) == 0
  {
    hide SetAuth, First;
  }

  lemma LookupTold(t: Thread, rm: Rooms, id: string, join: bool, x: Send)
    ensures OnLookup(t, rm, id, join).io == t.io && Gain(t, OnLookup(t, rm, id, join), x) == 0
  {
  }

  // Nobody but its receiver's thread sends x.
  lemma NobodyElse(cfg: Config, s: State, e: Cid, x: Send)
    requires Inv(cfg, s) && Own(s.rm, x) && e in s.threads && x in s.threads[e].io.pending
    ensures e == x.to
  {
    assert Turns(s.rm, s.threads[e], e) && Turn(s.rm, s.threads[e], e, x);
    if x.ev.RoomCreate? && s.threads[e].pc.InRoom? {
      CreatedRoom(cfg, s, e);
    }
    hide Genuine.Inv, Turns;
  }

  lemma StepTold(cfg: Config, s: State, a: Action, s': State, x: Send)
    requires Inv(cfg, s) && Enabled(cfg, s, a) && s' == Apply(cfg, s, a) && Own(s.rm, x) && x.to in s.threads
    ensures x.to in s'.threads
    ensures Told(s', x) == Told(s, x) + Gain(s.threads[x.to], s'.threads[x.to], x)
  {
    hide Apply, Enabled, Genuine.Inv, Turns, Own, Gain;
    Membership.NewThread(cfg, s, a, s');
    Telling.SentGrows(cfg, s, a);
    Membership.StepThreads(cfg, s, a);
    if Actor(s, a) == x.to {
      OldOnes(cfg, s, x.to);
      OwnTold(cfg, s, a, s', x);
    } else {
      if a.Deliver? && a.x == x {
        NobodyElse(cfg, s, a.c, x);
      }
      NoGain(s.threads[x.to], x);
    }
  }

  lemma OldOnes(cfg: Config, s: State, e: Cid)
    requires Inv(cfg, s) && e in s.threads
    ensures e <= s.nextId
  {
  }

  lemma NoGain(t: Thread, x: Send)
    ensures Gain(t, t, x) == 0
  {
  }

  // ---- Every step, every run ---------------------------------------------------------------------------------------

  // CheckAuth has come to the pass.
  predicate Admitted(pc: Pc) {
    pc == Hello(Passing) || !Lifecycle.InCheckAuth(pc)
  }

  predicate Receipt(cfg: Config, s: State, e: Cid)
    requires e in s.threads
  {
    && Told(s, Send(e, Challenge)) == Arrivals.One(cfg.auth)
    && (!s.threads[e].pc.Done? ==>
          Told(s, Send(e, AuthPass)) == Arrivals.One(cfg.auth && Admitted(s.threads[e].pc)))
  }

  // The private room id has been told to its creator, or is about to be.
  ghost predicate Private(s: State, id: string)
    requires id in s.rm.table
  {
    var p := s.rm.table[id];
    !p.public ==> p.creator in s.threads && Told(s, Send(p.creator, RoomCreate(id))) == 1
  }

  ghost predicate AllReceipts(cfg: Config, s: State) {
    && (forall e :: e in s.threads ==> Receipt(cfg, s, e))
    && forall id :: id in s.rm.table ==> Private(s, id)
  }

  lemma FreshReceipt(cfg: Config, s: State, s': State)
    requires Inv(cfg, s) && Enabled(cfg, s, Accept) && s' == Apply(cfg, s, Accept)
    ensures var c := s.nextId + 1;
            c in s'.threads && Receipt(cfg, s', c)
  {
    var c := s.nextId + 1;
    Unsaid(cfg, s, Send(c, Challenge));
    Unsaid(cfg, s, Send(c, AuthPass));
    hide Inv;
  }

  // A connection that is not there yet has been sent nothing, and nobody has been told of a room that is not.
  lemma Unsaid(cfg: Config, s: State, x: Send)
    requires Inv(cfg, s)
    requires x.to !in s.threads || (x.ev.RoomCreate? && x.ev.room !in s.rm.table)
    ensures s.sent[x] == 0
  {
    SentIsGenuine(cfg, s, x);
    hide Inv;
  }

  lemma SentIsGenuine(cfg: Config, s: State, x: Send)
    requires Inv(cfg, s)
    ensures x in s.sent ==> Genuine.Genuine(cfg, s, x)
  {
    assert x in s.sent ==> Genuine.Said(s, x);
    hide Genuine.Genuine, Membership.Inv, Presence.Inv;
  }

  // The steps of CheckAuth come to the pass once, and a thread that is gone stays gone.
  predicate PassStep(cfg: Config, e: Cid, t: Thread, t': Thread) {
    && (t.pc.Done? ==> t'.pc.Done?)
    && (!t'.pc.Done? ==>
          Arrivals.One(cfg.auth && Admitted(t'.pc)) ==
          Arrivals.One(cfg.auth && Admitted(t.pc)) + Gain(t, t', Send(e, AuthPass)))
  }

  lemma HelloPasses(cfg: Config, s: State, e: Cid, h: HelloPc)
    requires e in s.threads && s.threads[e].pc == Hello(h) && (Lifecycle.InCheckAuth(Hello(h)) ==> cfg.auth)
    ensures PassStep(cfg, e, s.threads[e], OnHello(s, e, h).threads[e])
  {
    hide Fan, TellUsers, TellClients, TellRooms, Others, OtherClients;
  }

  lemma SentPasses(cfg: Config, e: Cid, t: Thread, y: Send, ok: bool)
    requires Sending(t.pc)
    ensures PassStep(cfg, e, t, OnSent(t, y, ok))
  {
  }

  lemma QuietPasses(cfg: Config, e: Cid, t: Thread, t': Thread)
    requires !t.pc.Hello? && !t'.pc.Hello? && !t.pc.Done?
    ensures PassStep(cfg, e, t, t')
  {
  }

  lemma StandingPasses(cfg: Config, s: State, a: Action, s': State)
    requires Enabled(cfg, s, a) && s' == Apply(cfg, s, a) && (a.Login? || a.Fail? || a.Ask? || a.Hangup?)
    ensures a.c in s'.threads && PassStep(cfg, a.c, s.threads[a.c], s'.threads[a.c])
  {
    hide SetAuth, First;
  }

  lemma PassOnce(cfg: Config, s: State, a: Action, e: Cid)
    requires Inv(cfg, s) && Enabled(cfg, s, a) && e in s.threads
    ensures e in Apply(cfg, s, a).threads && PassStep(cfg, e, s.threads[e], Apply(cfg, s, a).threads[e])
  {
    hide OnHello, OnRoom, OnBye, OnLookup, OnCreate, OnSent, WriterPending, Inv, PassStep, SetAuth, First;
    Membership.StepThreads(cfg, s, a);
    OldOnes(cfg, s, e);
    if Actor(s, a) != e {
      SamePasses(cfg, e, s.threads[e]);
    } else if a.Deliver? {
      SentPasses(cfg, e, s.threads[e], a.x, a.ok);
    } else if a.Move? && s.threads[e].pc.Hello? {
      AuthOnly(cfg, s, e);
      HelloPasses(cfg, s, e, s.threads[e].pc.h);
    } else if a.Move? {
      Telling.QuietMove(cfg, s, a);
      QuietPasses(cfg, e, s.threads[e], Apply(cfg, s, a).threads[e]);
    } else {
      StandingPasses(cfg, s, a, Apply(cfg, s, a));
    }
  }

  lemma SamePasses(cfg: Config, e: Cid, t: Thread)
    ensures PassStep(cfg, e, t, t)
  {
  }

  lemma AuthOnly(cfg: Config, s: State, e: Cid)
    requires Inv(cfg, s) && e in s.threads
    ensures Lifecycle.InCheckAuth(s.threads[e].pc) ==> cfg.auth
  {
    assert Lifecycle.Placed(cfg, s.table, s.conns, s.readers, e, s.threads[e]);
    hide Genuine.AllGenuine, Membership.Inv, Arrivals.AllSay;
  }

  lemma StepReceipt(cfg: Config, s: State, a: Action, s': State, e: Cid)
    requires Inv(cfg, s) && Enabled(cfg, s, a) && s' == Apply(cfg, s, a) && e in s.threads && Receipt(cfg, s, e)
    ensures e in s'.threads && Receipt(cfg, s', e)
  {
    hide Apply, Enabled, Inv, Told, Admitted;
    var c, p := Send(e, Challenge), Send(e, AuthPass);
    StepTold(cfg, s, a, s', c);
    StepTold(cfg, s, a, s', p);
    PassOnce(cfg, s, a, e);
  }

  lemma StepPrivate(cfg: Config, s: State, a: Action, s': State, id: string)
    requires Inv(cfg, s) && Enabled(cfg, s, a) && s' == Apply(cfg, s, a) && id in s.rm.table && Private(s, id)
    ensures id in s'.rm.table && Private(s', id)
  {
    hide Apply, Enabled, Inv, Told;
    TablesOf(cfg, s, a, s', id);
    var p := s.rm.table[id];
    if !p.public {
      StepTold(cfg, s, a, s', Send(p.creator, RoomCreate(id)));
    }
  }

  lemma TablesOf(cfg: Config, s: State, a: Action, s': State, id: string)
    requires Inv(cfg, s) && Enabled(cfg, s, a) && s' == Apply(cfg, s, a) && id in s.rm.table
    ensures id in s'.rm.table && s'.rm.table[id] == s.rm.table[id]
  {
    hide Genuine.Inv, Turns;
    TablesKept(cfg, s, a, s');
  }

  lemma NewPrivate(cfg: Config, s: State, a: Action, s': State, id: string)
    requires Inv(cfg, s) && Enabled(cfg, s, a) && s' == Apply(cfg, s, a)
    requires id in s'.rm.table && id !in s.rm.table
    ensures Private(s', id)
  {
    NewRoom(cfg, s, a, s', id);
    if !s'.rm.table[id].public {
      var x := Send(a.c, RoomCreate(id));
      Unsaid(cfg, s, x);
      hide Apply, Enabled, Inv;
      Telling.SentGrows(cfg, s, a);
    }
  }

  lemma NewRoom(cfg: Config, s: State, a: Action, s': State, id: string)
    requires Enabled(cfg, s, a) && s' == Apply(cfg, s, a) && id in s'.rm.table && id !in s.rm.table
    ensures a.Move? && s'.rm.table[id].creator == a.c && a.c in s'.threads
    ensures !s'.rm.table[id].public ==> s'.threads[a.c].io == Protocol.One(Send(a.c, RoomCreate(id)))
  {
    hide OnHello, OnBye, OnLookup, OnSent, OnRequest, WriterPending, SetAuth, First, Fan, TellMembers;
    if a.Move? && s.threads[a.c].pc.Hello? {
      Membership.QuietHello(s, a.c, s.threads[a.c].pc.h);
    } else if a.Move? && s.threads[a.c].pc.Bye? {
      ByeRooms(cfg, s, a.c, s.threads[a.c].pc.b, a.pick);
    }
  }

  lemma ByeRooms(cfg: Config, s: State, e: Cid, b: ByePc, pick: Ptr)
    requires e in s.threads && s.threads[e].pc == Bye(b)
    ensures OnBye(cfg, s, e, b, pick).rm == s.rm
  {
    hide Fan, RemoveAuth, AnyLeft, OtherClients;
  }

  lemma StepAll(cfg: Config, s: State, a: Action, s': State)
    requires Inv(cfg, s) && Enabled(cfg, s, a) && s' == Apply(cfg, s, a) && AllReceipts(cfg, s)
    ensures AllReceipts(cfg, s')
  {
    hide Apply, Enabled, Inv, Receipt, Private;
    Membership.StepThreads(cfg, s, a);
    forall e | e in s'.threads
      ensures Receipt(cfg, s', e)
    {
      if e in s.threads {
        StepReceipt(cfg, s, a, s', e);
      } else {
        FreshReceipt(cfg, s, s');
      }
    }
    forall id | id in s'.rm.table
      ensures Private(s', id)
    {
      if id in s.rm.table {
        StepPrivate(cfg, s, a, s', id);
      } else {
        NewPrivate(cfg, s, a, s', id);
      }
    }
  }

  lemma {:induction false} RunAll(cfg: Config, run: seq<State>)
    requires IsRun(cfg, run)
    ensures AllReceipts(cfg, run[|run| - 1]) && Inv(cfg, run[|run| - 1])
  {
    hide Enabled, Apply, Inv;
    RunInv(cfg, run);
    if |run| > 1 {
      hide AllReceipts;
      RunPrefix(cfg, run);
      RunAll(cfg, run[..|run| - 1]);
      var a :| Enabled(cfg, run[|run| - 2], a) && run[|run| - 1] == Apply(cfg, run[|run| - 2], a);
      StepAll(cfg, run[|run| - 2], a, run[|run| - 1]);
    }
  }

  lemma NoneWaiting(cfg: Config, s: State, e: Cid)
    requires Inv(cfg, s) && e in s.threads
    ensures s.threads[e].pc != Hello(Credentials) ==> Arrivals.Waiting(s, e, Send(e, Challenge)) == 0
    ensures s.threads[e].pc != Hello(Passing) ==> Arrivals.Waiting(s, e, Send(e, AuthPass)) == 0
    ensures forall id :: id in s.rm.table && !s.rm.table[id].public
                         && !(s.threads[e].pc.InRoom? && s.threads[e].pc.r.CreateCast?
                              && s.threads[e].pc.r.room.id == id) ==>
              Arrivals.Waiting(s, e, Send(e, RoomCreate(id))) == 0
  {
    assert Turns(s.rm, s.threads[e], e);
    hide Genuine.Inv;
  }

  // In every interleaving of a server with authentication, a connection that has answered was sent its challenge once;
  // its pass is sent to it once, not before CheckAuth has come to it, and before anything that follows CheckAuth.
  lemma AdmittedOnce(cfg: Config, s: State, c: Cid)
    requires cfg.auth && Reachable(cfg, s) && c in s.threads && s.threads[c].pc != Hello(Credentials)
    ensures s.sent[Send(c, Challenge)] == 1
    ensures !s.threads[c].pc.Done? && s.threads[c].pc != Hello(Passing) ==>
              s.sent[Send(c, AuthPass)] == if Lifecycle.InCheckAuth(s.threads[c].pc) then 0 else 1
  {
    hide Inv, Reachable, Private;
    ReachableAll(cfg, s);
    NoneWaiting(cfg, s, c);
    assert Receipt(cfg, s, c);
  }

  // In every interleaving, a private room is told to its creator once, and to nobody else.
  lemma PrivateRoomTold(cfg: Config, s: State, id: string, d: Cid)
    requires Reachable(cfg, s) && id in s.rm.table && !s.rm.table[id].public
    requires var p := s.rm.table[id];
             p.creator in s.threads ==> s.threads[p.creator].pc != InRoom(CreateCast(p))
    ensures s.sent[Send(d, RoomCreate(id))] == if d == s.rm.table[id].creator then 1 else 0
  {
    hide Reachable, Inv, Private;
    ReachableAll(cfg, s);
    if d == s.rm.table[id].creator {
      CreatorTold(cfg, s, id);
    } else {
      OthersNotTold(cfg, s, id, d);
    }
  }

  lemma ReachableAll(cfg: Config, s: State)
    requires Reachable(cfg, s)
    ensures AllReceipts(cfg, s) && Inv(cfg, s)
  {
    hide AllReceipts, Inv;
    var run :| IsRun(cfg, run) && run[|run| - 1] == s;
    RunAll(cfg, run);
  }

  lemma CreatorTold(cfg: Config, s: State, id: string)
    requires Inv(cfg, s) && id in s.rm.table && !s.rm.table[id].public && Private(s, id)
    requires var p := s.rm.table[id];
             p.creator in s.threads ==> s.threads[p.creator].pc != InRoom(CreateCast(p))
    ensures s.sent[Send(s.rm.table[id].creator, RoomCreate(id))] == 1
  {
    hide Inv;
    NotTelling(cfg, s, s.rm.table[id].creator, id);
    NoneWaiting(cfg, s, s.rm.table[id].creator);
  }

  lemma OthersNotTold(cfg: Config, s: State, id: string, d: Cid)
    requires Inv(cfg, s) && id in s.rm.table && !s.rm.table[id].public && d != s.rm.table[id].creator
    ensures s.sent[Send(d, RoomCreate(id))] == 0
  {
    SentIsGenuine(cfg, s, Send(d, RoomCreate(id)));
    hide Inv;
  }

  lemma NotTelling(cfg: Config, s: State, e: Cid, id: string)
    requires Inv(cfg, s) && id in s.rm.table && e in s.threads
    requires s.threads[e].pc != InRoom(CreateCast(s.rm.table[id]))
    ensures !(s.threads[e].pc.InRoom? && s.threads[e].pc.r.CreateCast? && s.threads[e].pc.r.room.id == id)
  {
    hide Genuine.Inv, Turns;
    if s.threads[e].pc.InRoom? && s.threads[e].pc.r.CreateCast? {
      CreatedRoom(cfg, s, e);
    }
  }
}
