// What is sent about rooms: conservation of join and leave announcements, and the public rooms everybody is told.
module ProtocolAnnouncements {
  import opened ConnSpec
  import opened Protocol
  import Membership = ProtocolMembership

  // ---- What a thread can still have to send at each program counter ---------------------------------------

  datatype Kind = Nothing | Auth | Presence | Listing | Joins | Lefts

  function KindOf(ev: Event): Kind {
    match ev
    case RoomJoin(_, _) => Joins
    case RoomLeft(_, _) => Lefts
    case RoomCreate(_) => Listing
    case UserJoin(_) => Presence
    case UserLeft(_) => Presence
    case _ => Auth
  }

  function KindAt(pc: Pc): Kind {
    match pc
    case Hello(h) =>
      if h.JoinList? || h.JoinCast? then Presence
      else if h.RoomsList? then Listing
      else if h.Credentials? || h.AuthList? || h.AuthCast? || h.Passing? then Auth
      else Nothing
    case InRoom(r) =>
      if r.EnterIndex? || r.EnterCast? || r.EnterList? then Joins
      else if r.LeaveIndex? || r.LeaveCast? then Lefts
      else if r.CreateCast? then Listing
      else Nothing
    case Bye(b) => if b.LeftCast? then Presence else if b.RevokeCast? then Auth else Nothing
    case _ => Nothing
  }

  // One kind of event at each program counter; a join is announced by its subject or told to its subject.
  predicate Allowed(c: Cid, pc: Pc, x: Send) {
    && KindOf(x.ev) == KindAt(pc)
    && (x.ev.RoomJoin? ==> x.ev.who == c || x.to == c)
    && (x.ev.RoomLeft? ==> x.ev.who == c)
  }

  ghost predicate Sends(c: Cid, pc: Pc, io: Io) {
    && (forall x :: x in io.pending ==> Allowed(c, pc, x))
    && (forall x :: x in io.later ==> Allowed(c, pc, x) && pc.InRoom? && (pc.r.EnterIndex? || pc.r.EnterCast?))
  }

  ghost predicate Inv(cfg: Config, s: State) {
    && Membership.Inv(cfg, s)
    && (forall c :: c in s.threads ==> Sends(c, s.threads[c].pc, s.threads[c].io))
    && (forall a, b, id :: a != b ==> Conserved(s, a, b, id))
  }

  lemma AuthSends(s: State, c: Cid, h: HelloPc)
    requires c in s.threads && s.threads[c].pc == Hello(h)
    requires h.Credentials? || h.AuthSnap? || h.AuthList? || h.AuthCastSnap? || h.AuthCast? || h.Passing?
    requires Sends(c, s.threads[c].pc, s.threads[c].io)
    requires Sending(s.threads[c].pc) ==> s.threads[c].io.pending == multiset{}
    ensures var t := OnHello(s, c, h).threads[c];
            Sends(c, t.pc, t.io)
  {
    hide TellUsers, TellClients, TellRooms, TellMembers, Fan, SetAuth, First, Others, OtherClients, Of;
  }

  lemma HelloSends(s: State, c: Cid, h: HelloPc)
    requires c in s.threads && s.threads[c].pc == Hello(h)
    requires Sends(c, s.threads[c].pc, s.threads[c].io)
    requires Sending(s.threads[c].pc) ==> s.threads[c].io.pending == multiset{}
    ensures var t := OnHello(s, c, h).threads[c];
            Sends(c, t.pc, t.io)
  {
    hide TellUsers, TellClients, TellRooms, TellMembers, Fan, SetAuth, First, Others, OtherClients, Of;
    if h.Credentials? || h.AuthSnap? || h.AuthList? || h.AuthCastSnap? || h.AuthCast? || h.Passing? {
      AuthSends(s, c, h);
    }
  }

  lemma ByeSends(cfg: Config, s: State, c: Cid, b: ByePc, pick: Ptr)
    requires c in s.threads && s.threads[c].pc == Bye(b)
    requires Sends(c, s.threads[c].pc, s.threads[c].io)
    requires Sending(s.threads[c].pc) ==> s.threads[c].io.pending == multiset{}
    ensures var t := OnBye(cfg, s, c, b, pick).threads[c];
            Sends(c, t.pc, t.io)
  {
    hide Fan, TellUsers, TellClients, TellRooms, TellMembers, SetAuth, RemoveAuth, First, AnyLeft, Others;
    hide OtherClients, Of;
  }

  lemma LookupSends(c: Cid, t: Thread, rm: Rooms, id: string, join: bool)
    requires t.pc == Looking(id, join) && Sends(c, t.pc, t.io)
    ensures var t' := OnLookup(t, rm, id, join);
            Sends(c, t'.pc, t'.io)
  {
  }

  lemma CreateSends(c: Cid, t: Thread, rm: Rooms, id: string, public: bool)
    requires t.pc == Creating(id, public) && Sends(c, t.pc, t.io)
    ensures var t' := OnCreate(c, t, rm, id, public).t;
            Sends(c, t'.pc, t'.io)
  {
  }

  lemma LockSends(c: Cid, pc: Pc, ds: set<Cid>, p: Ptr)
    ensures pc == InRoom(EnterIndex(p)) ==>
              Sends(c, pc, Io(Fan(ds, RoomJoin(c, p.id)), TellMembers(c, ds - {c}, p.id)))
    ensures pc == InRoom(CreateCast(p)) ==> Sends(c, pc, Io(Fan(ds, RoomCreate(p.id)), multiset{}))
    ensures pc.InRoom? && pc.r.LeaveIndex? ==> Sends(c, pc, Io(Fan(ds, RoomLeft(c, p.id)), multiset{}))
  {
    hide TellMembers, Fan;
  }

  lemma SnapSends(cfg: Config, c: Cid, t: Thread, rm: Rooms, table: set<Cid>, r: RoomPc, pick: Ptr)
    requires CanMove(cfg, t.mem, rm, r, pick) && t.pc == InRoom(r)
    requires Sends(c, t.pc, t.io)
    requires r.LeaveLock? || r.EnterLock? || r.CreateSnap?
    ensures var e := OnRoom(cfg, c, t, rm, table, r, pick);
            Sends(c, e.t.pc, e.t.io)
  {
    hide TellMembers, Fan;
    var pc' := OnRoom(cfg, c, t, rm, table, r, pick).t.pc;
    if r.CreateSnap? {
      LockSends(c, pc', table, r.room);
    } else if r.LeaveLock? {
      LockSends(c, pc', rm.members[r.room], r.room);
    } else if c !in rm.members[r.room] {
      assert rm.members[r.room] + {c} - {c} == rm.members[r.room];
      LockSends(c, pc', rm.members[r.room] + {c}, r.room);
    }
  }

  lemma RoomSends(cfg: Config, c: Cid, t: Thread, rm: Rooms, table: set<Cid>, r: RoomPc, pick: Ptr)
    requires CanMove(cfg, t.mem, rm, r, pick) && t.pc == InRoom(r)
    requires Sends(c, t.pc, t.io)
    requires Sending(t.pc) ==> t.io.pending == multiset{}
    ensures var e := OnRoom(cfg, c, t, rm, table, r, pick);
            Sends(c, e.t.pc, e.t.io)
  {
    hide TellMembers, Fan;
    if r.LeaveLock? || r.EnterLock? || r.CreateSnap? {
      hide Sends, OnRoom;
      SnapSends(cfg, c, t, rm, table, r, pick);
    }
  }

  lemma SentSends(c: Cid, t: Thread, x: Send, ok: bool)
    requires Sends(c, t.pc, t.io) && Sending(t.pc)
    ensures var t' := OnSent(t, x, ok);
            Sends(c, t'.pc, t'.io)
  {
    if ok {
      assert OnSent(t, x, ok).pc == t.pc;
    }
  }

  lemma EventSends(cfg: Config, s: State, a: Action)
    requires Enabled(cfg, s, a) && !a.Move? && !a.Deliver?
    requires !a.Accept? ==> Sends(a.c, s.threads[a.c].pc, s.threads[a.c].io)
    ensures var t := Apply(cfg, s, a).threads[Actor(s, a)];
            Sends(Actor(s, a), t.pc, t.io)
  {
    hide TellUsers, TellClients, TellRooms, TellMembers, Fan, SetAuth, First, Others, OtherClients, Of, OnHello;
    hide OnRoom, OnBye;
  }

  lemma StepSends(cfg: Config, s: State, a: Action)
    requires Enabled(cfg, s, a)
    requires !a.Accept? ==> Sends(a.c, s.threads[a.c].pc, s.threads[a.c].io)
    ensures var t := Apply(cfg, s, a).threads[Actor(s, a)];
            Sends(Actor(s, a), t.pc, t.io)
  {
    hide Sends, OnRoom, OnHello, OnBye, OnRequest, OnCreate, OnSent;
    if a.Move? {
      match s.threads[a.c].pc {
        case Hello(h) => HelloSends(s, a.c, h);
        case Looking(id, join) => LookupSends(a.c, s.threads[a.c], s.rm, id, join);
        case Creating(id, public) => CreateSends(a.c, s.threads[a.c], s.rm, id, public);
        case InRoom(r) => RoomSends(cfg, a.c, s.threads[a.c], s.rm, s.table, r, a.pick);
        case Bye(b) => ByeSends(cfg, s, a.c, b, a.pick);
        case _ =>
      }
    } else if a.Deliver? {
      SentSends(a.c, s.threads[a.c], a.x, a.ok);
    } else {
      EventSends(cfg, s, a);
    }
  }

  // ---- Conservation ----------------------------------------------------------------------------------------

  function Owed(s: State, c: Cid, x: Send): nat {
    if c in s.threads then s.threads[c].io.pending[x] + s.threads[c].io.later[x] else 0
  }

  // All announcements x made so far between a and b: sent, or still to be sent by one of the two.
  function Made(s: State, a: Cid, b: Cid, x: Send): nat {
    s.sent[x] + Owed(s, a, x) + Owed(s, b, x)
  }

  predicate Together(rm: Rooms, a: Cid, b: Cid, id: string) {
    id in rm.table && rm.table[id] in rm.members && a in rm.members[rm.table[id]] && b in rm.members[rm.table[id]]
  }

  // Joins of b announced to a == partings of the two announced + 1 if they are together now.
  predicate Conserved(s: State, a: Cid, b: Cid, id: string) {
    Made(s, a, b, Send(a, RoomJoin(b, id))) ==
    Made(s, a, b, Send(a, RoomLeft(b, id))) + Made(s, a, b, Send(b, RoomLeft(a, id)))
    + if Together(s.rm, a, b, id) then 1 else 0
  }

  predicate RoomEvent(x: Send) {
    x.ev.RoomJoin? || x.ev.RoomLeft?
  }

  // The steps that change a clientsMap.
  predicate Entering(s: State, a: Action) {
    && a.Move? && a.c in s.threads && s.threads[a.c].pc.InRoom? && s.threads[a.c].pc.r.EnterLock?
    && s.threads[a.c].pc.r.room in s.rm.members && a.c !in s.rm.members[s.threads[a.c].pc.r.room]
  }

  predicate Leaving(s: State, a: Action) {
    && a.Move? && a.c in s.threads && s.threads[a.c].pc.InRoom? && s.threads[a.c].pc.r.LeaveLock?
    && s.threads[a.c].pc.r.room in s.rm.members && a.c in s.rm.members[s.threads[a.c].pc.r.room]
  }

  // Every other step neither makes nor loses a room announcement, and sends only what its thread owes.
  ghost predicate Quiet(s: State, s': State, c: Cid, x: Send) {
    && s'.sent[x] + Owed(s', c, x) == s.sent[x] + Owed(s, c, x)
    && RoomEvent(x)
    && (s'.sent[x] != s.sent[x] ==> x.ev.who == c || (x.ev.RoomJoin? && x.to == c))
  }

  lemma NoTraffic(c: Cid, pc: Pc, io: Io, x: Send)
    requires Sends(c, pc, io) && RoomEvent(x) && (KindAt(pc).Joins? || KindAt(pc).Lefts? ==> io == NO_IO)
    ensures io.pending[x] == 0 && io.later[x] == 0
  {
    assert x !in io.pending && x !in io.later;
  }

  lemma RoomTraffic(cfg: Config, c: Cid, t: Thread, rm: Rooms, table: set<Cid>, r: RoomPc, pick: Ptr, x: Send)
    requires CanMove(cfg, t.mem, rm, r, pick) && t.pc == InRoom(r)
    requires Sends(c, t.pc, t.io) && RoomEvent(x)
    requires Sending(t.pc) ==> t.io.pending == multiset{}
    requires r.LeaveLock? ==> c !in rm.members[r.room]
    requires r.EnterLock? ==> c in rm.members[r.room]
    ensures var io := OnRoom(cfg, c, t, rm, table, r, pick).t.io;
            io.pending[x] + io.later[x] == t.io.pending[x] + t.io.later[x]
  {
    hide TellMembers, Fan;
    if r.CreateSnap? {
      assert x !in t.io.pending && x !in t.io.later;
    }
  }

  lemma SentTraffic(c: Cid, t: Thread, y: Send, ok: bool, x: Send)
    requires Sends(c, t.pc, t.io) && Sending(t.pc) && RoomEvent(x) && y in t.io.pending
    ensures var io := OnSent(t, y, ok).io;
            io.pending[x] + io.later[x] + (if x == y then 1 else 0) == t.io.pending[x] + t.io.later[x]
  {
    if t.pc.Hello? {
      NoTraffic(c, t.pc, t.io, x);
    }
  }

  lemma ElsewhereKinds(cfg: Config, s: State, a: Action)
    requires Enabled(cfg, s, a) && !a.Deliver? && !(a.Move? && s.threads[a.c].pc.InRoom?)
    ensures var s', c := Apply(cfg, s, a), Actor(s, a);
            && s'.sent == s.sent
            && !KindAt(s'.threads[c].pc).Joins? && !KindAt(s'.threads[c].pc).Lefts?
            && (!a.Accept? ==> !KindAt(s.threads[c].pc).Joins? && !KindAt(s.threads[c].pc).Lefts?)
  {
    hide Fan, TellUsers, TellClients, TellRooms, TellMembers, SetAuth, RemoveAuth, First, AnyLeft, Others;
    hide OtherClients, Of, OnRoom, WriterPending;
    if a.Move? {
      hide OnSent, OnRequest;
    } else {
      hide OnHello, OnBye, OnCreate, OnLookup, OnSent;
    }
  }

  lemma QuietTraffic(cfg: Config, s: State, a: Action, x: Send)
    requires Enabled(cfg, s, a) && !Entering(s, a) && !Leaving(s, a) && RoomEvent(x)
    requires !a.Accept? ==> Sends(a.c, s.threads[a.c].pc, s.threads[a.c].io)
    requires a.Accept? ==> Actor(s, a) !in s.threads
    ensures Quiet(s, Apply(cfg, s, a), Actor(s, a), x)
  {
    hide OnRoom, OnSent, OnHello, OnBye, OnRequest, OnCreate;
    var s', c := Apply(cfg, s, a), Actor(s, a);
    if a.Deliver? {
      SentTraffic(a.c, s.threads[c], a.x, a.ok, x);
    } else if a.Move? && s.threads[c].pc.InRoom? {
      RoomTraffic(cfg, c, s.threads[c], s.rm, s.table, s.threads[c].pc.r, a.pick, x);
    } else {
      StepSends(cfg, s, a);
      ElsewhereKinds(cfg, s, a);
      hide Apply;
      Membership.StepThreads(cfg, s, a);
      NoTraffic(c, s'.threads[c].pc, s'.threads[c].io, x);
      if !a.Accept? {
        NoTraffic(c, s.threads[c].pc, s.threads[c].io, x);
      }
    }
  }

  // The locked section of Room.Join makes exactly the announcements between the newcomer and each member.
  lemma EnterTraffic(cfg: Config, s: State, a: Action, x: Send)
    requires Enabled(cfg, s, a) && Entering(s, a) && RoomEvent(x)
    requires Sends(a.c, s.threads[a.c].pc, s.threads[a.c].io)
    ensures var s', c, p := Apply(cfg, s, a), a.c, s.threads[a.c].pc.r.room;
            && s'.sent == s.sent && Owed(s, c, x) == 0
            && s'.rm == s.rm.(members := s.rm.members[p := s.rm.members[p] + {c}])
            && Owed(s', c, x) ==
               (if x.ev == RoomJoin(c, p.id) && (x.to == c || x.to in s.rm.members[p]) then 1 else 0)
               + (if x.to == c && x.ev.RoomJoin? && x.ev.room == p.id && x.ev.who in s.rm.members[p] then 1 else 0)
  {
    hide Fan, TellMembers;
    NoTraffic(a.c, s.threads[a.c].pc, s.threads[a.c].io, x);
  }

  // The locked section of Room.Left announces the parting to everybody who was in the room.
  lemma LeaveTraffic(cfg: Config, s: State, a: Action, x: Send)
    requires Enabled(cfg, s, a) && Leaving(s, a) && RoomEvent(x)
    requires Sends(a.c, s.threads[a.c].pc, s.threads[a.c].io)
    ensures var s', c, p := Apply(cfg, s, a), a.c, s.threads[a.c].pc.r.room;
            && s'.sent == s.sent && Owed(s, c, x) == 0
            && s'.rm == s.rm.(members := s.rm.members[p := s.rm.members[p] - {c}])
            && Owed(s', c, x) == if x.ev == RoomLeft(c, p.id) && x.to in s.rm.members[p] then 1 else 0
  {
    hide Fan, TellMembers;
    NoTraffic(a.c, s.threads[a.c].pc, s.threads[a.c].io, x);
  }

  lemma QuietRooms(cfg: Config, s: State, a: Action)
    requires Enabled(cfg, s, a) && !Entering(s, a) && !Leaving(s, a) && Membership.RoomsOk(s.rm)
    ensures var rm, rm' := s.rm, Apply(cfg, s, a).rm;
            || rm' == rm
            || exists p: Ptr ::
                 p.id !in rm.table && rm' == Rooms(rm.table[p.id := p], rm.members[p := {}], rm.nextSerial + 1)
  {
    hide Fan, TellMembers, TellUsers, TellClients, TellRooms;
    hide OnRequest;
    if a.Move? && s.threads[a.c].pc.Creating? {
      var pc := s.threads[a.c].pc;
      var e := OnCreate(a.c, s.threads[a.c], s.rm, pc.id, pc.public);
      assert e.rm == s.rm ||
             var p := Ptr(s.rm.nextSerial, pc.id, pc.public, a.c);
             p.id !in s.rm.table && e.rm == Rooms(s.rm.table[p.id := p], s.rm.members[p := {}], s.rm.nextSerial + 1);
    } else {
      hide Membership.RoomsOk;
    }
  }

  lemma QuietTogether(cfg: Config, s: State, a: Action, b: Cid, d: Cid, id: string)
    requires Enabled(cfg, s, a) && !Entering(s, a) && !Leaving(s, a) && Membership.RoomsOk(s.rm)
    ensures Together(Apply(cfg, s, a).rm, b, d, id) <==> Together(s.rm, b, d, id)
  {
    hide Apply, Enabled;
    QuietRooms(cfg, s, a);
  }

  lemma QuietMade(cfg: Config, s: State, a: Action, b: Cid, d: Cid, x: Send)
    requires Enabled(cfg, s, a) && !Entering(s, a) && !Leaving(s, a) && b != d && RoomEvent(x)
    requires {x.to, x.ev.who} <= {b, d}
    requires forall c :: c in s.threads ==> c <= s.nextId
    requires !a.Accept? ==> Sends(a.c, s.threads[a.c].pc, s.threads[a.c].io)
    ensures Made(Apply(cfg, s, a), b, d, x) == Made(s, b, d, x)
  {
    hide Apply, Enabled, Sends;
    QuietTraffic(cfg, s, a, x);
    Membership.StepThreads(cfg, s, a);
    assert x.to in {b, d} && x.ev.who in {b, d};
  }

  lemma QuietConserved(cfg: Config, s: State, a: Action, b: Cid, d: Cid, id: string)
    requires Enabled(cfg, s, a) && !Entering(s, a) && !Leaving(s, a) && b != d && Conserved(s, b, d, id)
    requires Membership.RoomsOk(s.rm) && forall c :: c in s.threads ==> c <= s.nextId
    requires !a.Accept? ==> Sends(a.c, s.threads[a.c].pc, s.threads[a.c].io)
    ensures Conserved(Apply(cfg, s, a), b, d, id)
  {
    hide Apply, Enabled, Made, Together;
    QuietTogether(cfg, s, a, b, d, id);
    QuietMade(cfg, s, a, b, d, Send(b, RoomJoin(d, id)));
    QuietMade(cfg, s, a, b, d, Send(b, RoomLeft(d, id)));
    QuietMade(cfg, s, a, b, d, Send(d, RoomLeft(b, id)));
  }

  lemma OthersOwed(cfg: Config, s: State, a: Action, b: Cid, d: Cid, x: Send)
    requires Enabled(cfg, s, a) && a.Move?
    ensures b != a.c ==> Owed(Apply(cfg, s, a), b, x) == Owed(s, b, x)
    ensures d != a.c ==> Owed(Apply(cfg, s, a), d, x) == Owed(s, d, x)
  {
    hide Apply, Enabled;
    Membership.StepThreads(cfg, s, a);
  }

  lemma EnterConserved(cfg: Config, s: State, a: Action, b: Cid, d: Cid, id: string)
    requires Enabled(cfg, s, a) && Entering(s, a) && b != d && Conserved(s, b, d, id)
    requires Membership.RoomsOk(s.rm)
    requires Sends(a.c, s.threads[a.c].pc, s.threads[a.c].io)
    ensures Conserved(Apply(cfg, s, a), b, d, id)
  {
    var x, y, z := Send(b, RoomJoin(d, id)), Send(b, RoomLeft(d, id)), Send(d, RoomLeft(b, id));
    EnterTraffic(cfg, s, a, x);
    EnterTraffic(cfg, s, a, y);
    EnterTraffic(cfg, s, a, z);
    hide Apply, Enabled, Sends, Owed;
    OthersOwed(cfg, s, a, b, d, x);
    OthersOwed(cfg, s, a, b, d, y);
    OthersOwed(cfg, s, a, b, d, z);
  }

  lemma LeaveConserved(cfg: Config, s: State, a: Action, b: Cid, d: Cid, id: string)
    requires Enabled(cfg, s, a) && Leaving(s, a) && b != d && Conserved(s, b, d, id)
    requires Membership.RoomsOk(s.rm)
    requires Sends(a.c, s.threads[a.c].pc, s.threads[a.c].io)
    ensures Conserved(Apply(cfg, s, a), b, d, id)
  {
    var x, y, z := Send(b, RoomJoin(d, id)), Send(b, RoomLeft(d, id)), Send(d, RoomLeft(b, id));
    LeaveTraffic(cfg, s, a, x);
    LeaveTraffic(cfg, s, a, y);
    LeaveTraffic(cfg, s, a, z);
    hide Apply, Enabled, Sends, Owed;
    OthersOwed(cfg, s, a, b, d, x);
    OthersOwed(cfg, s, a, b, d, y);
    OthersOwed(cfg, s, a, b, d, z);
  }

  lemma StepConserved(cfg: Config, s: State, a: Action, b: Cid, d: Cid, id: string)
    requires Enabled(cfg, s, a) && Inv(cfg, s) && b != d
    ensures Conserved(Apply(cfg, s, a), b, d, id)
  {
    assert Conserved(s, b, d, id);
    hide Apply, Enabled, Conserved, Sends, Membership.RoomsOk;
    if Entering(s, a) {
      EnterConserved(cfg, s, a, b, d, id);
    } else if Leaving(s, a) {
      LeaveConserved(cfg, s, a, b, d, id);
    } else {
      QuietConserved(cfg, s, a, b, d, id);
    }
  }

  lemma StepInv(cfg: Config, s: State, a: Action)
    requires Enabled(cfg, s, a) && Inv(cfg, s)
    ensures Inv(cfg, Apply(cfg, s, a))
  {
    hide Apply, Enabled, Conserved, Sends, Membership.Inv;
    Membership.StepInv(cfg, s, a);
    Membership.StepThreads(cfg, s, a);
    StepSends(cfg, s, a);
    forall b, d, id | b != d
      ensures Conserved(Apply(cfg, s, a), b, d, id)
    {
      StepConserved(cfg, s, a, b, d, id);
    }
  }

  lemma InitInv(cfg: Config)
    ensures Inv(cfg, Init())
  {
    Membership.InitInv(cfg);
  }

  lemma {:induction false} RunInv(cfg: Config, run: seq<State>)
    requires IsRun(cfg, run)
    ensures Inv(cfg, run[|run| - 1])
  {
    hide Inv, Enabled, Apply;
    InitInv(cfg);
    if |run| > 1 {
      RunPrefix(cfg, run);
      RunInv(cfg, run[..|run| - 1]);
      var a :| Enabled(cfg, run[|run| - 2], a) && run[|run| - 1] == Apply(cfg, run[|run| - 2], a);
      StepInv(cfg, run[|run| - 2], a);
    }
  }

  // Conservation of announcements, in every interleaving: once neither a nor b has anything left to send, the
  // joins of b announced to a are the partings announced to either of them, plus one if they share the room now.
  lemma AnnouncementsConserved(cfg: Config, s: State, a: Cid, b: Cid, id: string)
    requires Reachable(cfg, s) && a != b
    requires forall c :: c in {a, b} && c in s.threads ==> s.threads[c].io == NO_IO
    ensures s.sent[Send(a, RoomJoin(b, id))] ==
            s.sent[Send(a, RoomLeft(b, id))] + s.sent[Send(b, RoomLeft(a, id))]
            + if Together(s.rm, a, b, id) then 1 else 0
  {
    var run :| IsRun(cfg, run) && run[|run| - 1] == s;
    RunInv(cfg, run);
    assert Conserved(s, a, b, id);
  }

  // ---- What a connection is told of itself -------------------------------------------------------------------------

  // Own joins of a == own partings of a + 1 if it is in the room now.
  predicate OwnConserved(s: State, a: Cid, id: string) {
    var joined, left := Send(a, RoomJoin(a, id)), Send(a, RoomLeft(a, id));
    s.sent[joined] + Owed(s, a, joined) ==
    s.sent[left] + Owed(s, a, left) + if Together(s.rm, a, a, id) then 1 else 0
  }

  lemma OthersQuiet(cfg: Config, s: State, a: Action, b: Cid, x: Send)
    requires Enabled(cfg, s, a) && b != Actor(s, a)
    ensures Owed(Apply(cfg, s, a), b, x) == Owed(s, b, x)
  {
    hide Apply, Enabled;
    Membership.StepThreads(cfg, s, a);
  }

  lemma QuietOwn(cfg: Config, s: State, a: Action, b: Cid, id: string)
    requires Enabled(cfg, s, a) && !Entering(s, a) && !Leaving(s, a) && OwnConserved(s, b, id)
    requires Membership.RoomsOk(s.rm) && forall c :: c in s.threads ==> c <= s.nextId
    requires !a.Accept? ==> Sends(a.c, s.threads[a.c].pc, s.threads[a.c].io)
    ensures OwnConserved(Apply(cfg, s, a), b, id)
  {
    hide Apply, Enabled, Together, Sends;
    var joined, left := Send(b, RoomJoin(b, id)), Send(b, RoomLeft(b, id));
    QuietTogether(cfg, s, a, b, b, id);
    QuietTraffic(cfg, s, a, joined);
    QuietTraffic(cfg, s, a, left);
    if b != Actor(s, a) {
      OthersQuiet(cfg, s, a, b, joined);
      OthersQuiet(cfg, s, a, b, left);
    }
  }

  lemma LoudOwn(cfg: Config, s: State, a: Action, b: Cid, id: string)
    requires Enabled(cfg, s, a) && (Entering(s, a) || Leaving(s, a)) && OwnConserved(s, b, id)
    requires Membership.RoomsOk(s.rm) && Sends(a.c, s.threads[a.c].pc, s.threads[a.c].io)
    ensures OwnConserved(Apply(cfg, s, a), b, id)
  {
    hide Apply, Enabled, Sends, Owed;
    var joined, left := Send(b, RoomJoin(b, id)), Send(b, RoomLeft(b, id));
    if Entering(s, a) {
      EnterTraffic(cfg, s, a, joined);
      EnterTraffic(cfg, s, a, left);
    } else {
      LeaveTraffic(cfg, s, a, joined);
      LeaveTraffic(cfg, s, a, left);
    }
    if b != a.c {
      OthersQuiet(cfg, s, a, b, joined);
      OthersQuiet(cfg, s, a, b, left);
    }
  }

  lemma {:induction false} RunOwn(cfg: Config, run: seq<State>, a: Cid, id: string)
    requires IsRun(cfg, run)
    ensures OwnConserved(run[|run| - 1], a, id)
  {
    hide Enabled, Apply, OwnConserved, Conserved, Membership.RoomsOk, Membership.Own, Sends;
    var n := |run| - 1;
    if n == 0 {
      NothingOwn(a, id);
    } else {
      RunPrefix(cfg, run);
      RunOwn(cfg, run[..n], a, id);
      RunInv(cfg, run[..n]);
      var e :| Enabled(cfg, run[n - 1], e) && run[n] == Apply(cfg, run[n - 1], e);
      Membership.StepThreads(cfg, run[n - 1], e);
      if Entering(run[n - 1], e) || Leaving(run[n - 1], e) {
        LoudOwn(cfg, run[n - 1], e, a, id);
      } else {
        QuietOwn(cfg, run[n - 1], e, a, id);
      }
    }
  }

  lemma NothingOwn(a: Cid, id: string)
    ensures OwnConserved(Init(), a, id)
  {
  }

  // Everybody is told of itself as well, in every interleaving: once a has nothing left to send, it has been sent its
  // own joins of a room as often as its own partings, and once more if it is in the room now.
  lemma OwnAnnouncementsConserved(cfg: Config, s: State, a: Cid, id: string)
    requires Reachable(cfg, s) && (a in s.threads ==> s.threads[a].io == NO_IO)
    ensures s.sent[Send(a, RoomJoin(a, id))] ==
            s.sent[Send(a, RoomLeft(a, id))] + if Together(s.rm, a, a, id) then 1 else 0
  {
    var run :| IsRun(cfg, run) && run[|run| - 1] == s;
    RunOwn(cfg, run, a, id);
  }
}
