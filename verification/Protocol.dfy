// The connection protocol of eddwise.go, room.go, user_join.go and auth.go as an interleaved step machine.
// One thread runs per connection. Every lock region of the source is one step; index updates and every single
// send are steps of their own, so any other connection can move between them.
module Protocol {
  import opened Common
  import opened ConnSpec
  import opened RoomSpec

  // A room object: its address and the fields nobody ever writes. `creator` is a history field.
  datatype Ptr = Ptr(serial: nat, id: string, public: bool, creator: Cid)

  // Presence and room events are recorded with the connection they are about; on the wire that connection is
  // shown by its user id, or by its number when nobody logs in.
  datatype Event =
    | Challenge
    | AuthPass
    | AuthJoin(user: User)
    | AuthLeft(user: User)
    | UserJoin(who: Cid)
    | UserLeft(who: Cid)
    | RoomCreate(room: string)
    | RoomJoin(who: Cid, room: string)
    | RoomLeft(who: Cid, room: string)

  datatype Send = Send(to: Cid, ev: Event)

  datatype Reply = NoReply | Ok | Refused

  // A join request that passed the checks of OnRoomEvent (or a successful create): the room to enter, the room
  // to leave first, and how many rooms were held when the checks passed.
  datatype Plan = NoPlan | Entering(room: Ptr, leaving: Option<Ptr>, held: nat)

  // What runs after Room.Left returns.
  datatype Then = Answer | Enter(room: Ptr) | QuitRest(todo: set<Ptr>)

  // CheckAuth, then the handler up to its read loop.
  datatype HelloPc =
    | Credentials
    | AuthSnap(first: bool)
    | AuthList(first: bool)
    | AuthCastSnap
    | AuthCast
    | Passing
    | Connecting
    | JoinSnap
    | JoinList
    | JoinCastSnap
    | JoinCast
    | RoomsSnap
    | RoomsList

  // OnRoomEvent, Room.Left and Room.Join.
  datatype RoomPc =
    | HasCheck(room: Ptr)
    | LeaveLock(room: Ptr, after: Then)
    | LeaveIndex(room: Ptr, after: Then)
    | LeaveCast(after: Then)
    | CreateSnap(room: Ptr)
    | CreateCast(room: Ptr)
    | EnterLock(room: Ptr)
    | EnterIndex(room: Ptr)
    | EnterCast(room: Ptr)
    | EnterList(room: Ptr)

  // The deferred calls.
  datatype ByePc =
    | QuitSnap
    | Quitting(todo: set<Ptr>)
    | LeftSnap
    | LeftCast
    | Removing
    | Revoking
    | RevokeSnap
    | RevokeCast

  // `Idle` waits for the next message of the client, `Looking` for the read lock of RoomManager.Room, for a join or a
  // leave request, and `Creating` for the write lock of RoomManager.Create.
  datatype Pc =
    | Hello(h: HelloPc)
    | Idle
    | Looking(id: string, join: bool)
    | Creating(id: string, public: bool)
    | InRoom(r: RoomPc)
    | Bye(b: ByePc)
    | Done

  // ClientContextMap.rooms, the answer to the last room request, its plan, and the number of successful creates.
  datatype Mem = Mem(index: map<string, Ptr>, reply: Reply, plan: Plan, creates: nat)

  // What the current broadcast or list has still to send, and what the next one will.
  datatype Io = Io(pending: multiset<Send>, later: multiset<Send>)

  // The error results of onJoin and SendPublicRooms, which the handler drops, and (also in `list`) of the list of users
  // in CheckAuth; a failed send inside the current broadcast of CheckAuth; and whether CheckAuth failed after the
  // connection was registered.
  datatype Flags = Flags(join: bool, list: bool, cast: bool, auth: bool)

  // `user` and `first` are what setAuth was called with and what it answered.
  datatype Thread = Thread(pc: Pc, user: User, first: bool, mem: Mem, io: Io, failed: Flags)

  // The room manager: its table and every room object's clientsMap.
  datatype Rooms = Rooms(table: map<string, Ptr>, members: map<Ptr, set<Cid>>, nextSerial: nat)

  // `table` is the server's client table, `readers` the threads that hold the room manager's read lock across
  // sends, `sent` all sends attempted so far.
  datatype State = State(
    threads: map<Cid, Thread>,
    table: set<Cid>,
    rm: Rooms,
    conns: Conns,
    readers: set<Cid>,
    sent: multiset<Send>,
    nextId: nat)

  // `auth`: a channel embeds ConnManager; `multi` and `limit`: MultiRoomMode and SetRoomsPerUserLimit.
  datatype Config = Config(auth: bool, multi: bool, limit: int)

  // `pick` resolves the iteration order of a Go map where a step depends on it.
  datatype Action =
    | Accept
    | Login(c: Cid, user: User)
    | Fail(c: Cid)
    | Ask(c: Cid, req: Request)
    | Hangup(c: Cid)
    | Deliver(c: Cid, x: Send, ok: bool)
    | Move(c: Cid, pick: Ptr)

  const NO_IO := Io(multiset{}, multiset{})

  function One(x: Send): Io {
    Io(multiset{x}, multiset{})
  }

  function Fan(to: set<Cid>, ev: Event): (m: multiset<Send>)
    ensures forall x :: m[x] == if x.ev == ev && x.to in to then 1 else 0
  {
    multiset(set c | c in to :: Send(c, ev))
  }

  function Tell(to: Cid, evs: set<Event>): (m: multiset<Send>)
    ensures forall x :: m[x] == if x.to == to && x.ev in evs then 1 else 0
  {
    multiset(set e | e in evs :: Send(to, e))
  }

  // The lists one connection is sent: the other users, the other connections, the public rooms, a room's members.
  function TellUsers(to: Cid, us: set<User>): (m: multiset<Send>)
    ensures forall x :: m[x] == if x.to == to && x.ev.AuthJoin? && x.ev.user in us then 1 else 0
  {
    Tell(to, set u | u in us :: AuthJoin(u))
  }

  function TellClients(to: Cid, cs: set<Cid>): (m: multiset<Send>)
    ensures forall x :: m[x] == if x.to == to && x.ev.UserJoin? && x.ev.who in cs then 1 else 0
  {
    Tell(to, set c | c in cs :: UserJoin(c))
  }

  function TellRooms(to: Cid, table: map<string, Ptr>): (m: multiset<Send>)
    ensures forall x :: m[x] ==
                        if x.to == to && x.ev.RoomCreate? && x.ev.room in table && table[x.ev.room].public then 1 else 0
  {
    Tell(to, set id | id in table && table[id].public :: RoomCreate(id))
  }

  function TellMembers(to: Cid, cs: set<Cid>, id: string): (m: multiset<Send>)
    ensures forall x :: m[x] ==
                        if x.to == to && x.ev.RoomJoin? && x.ev.who in cs && x.ev.room == id then 1 else 0
  {
    Tell(to, set c | c in cs :: RoomJoin(c, id))
  }

  function Init(): State {
    State(map[], {}, Rooms(map[], map[], 0), NO_CONNS, {}, multiset{}, 0)
  }

  function Fresh(cfg: Config, c: Cid): Thread {
    Thread(Hello(if cfg.auth then Credentials else Connecting), "", false, Mem(map[], NoReply, NoPlan, 0),
           if cfg.auth then One(Send(c, Challenge)) else NO_IO, Flags(false, false, false, false))
  }

  function Put(s: State, c: Cid, t: Thread): State {
    s.(threads := s.threads[c := t])
  }

  // The program counters at which a thread is sending.
  predicate Sending(pc: Pc) {
    match pc
    case Hello(h) =>
      h.Credentials? || h.AuthList? || h.AuthCast? || h.Passing? || h.JoinList? || h.JoinCast? || h.RoomsList?
    case InRoom(r) => r.LeaveCast? || r.CreateCast? || r.EnterCast? || r.EnterList?
    case Bye(b) => b.LeftCast? || b.RevokeCast?
    case _ => false
  }

  // Somebody waits for the write lock of the room manager. Go's RWMutex then lets no new reader in.
  predicate WriterPending(s: State) {
    exists d :: d in s.threads && s.threads[d].pc.Creating?
  }

  predicate Enabled(cfg: Config, s: State, a: Action) {
    match a
    case Accept => true
    case Login(c, _) =>
      c in s.threads && s.threads[c].pc == Hello(Credentials) && s.threads[c].io.pending == multiset{}
    case Fail(c) =>
      && c in s.threads
      && (|| s.threads[c].pc == Hello(Connecting)
          || (s.threads[c].pc == Hello(Credentials) && s.threads[c].io.pending == multiset{}))
    case Ask(c, _) => c in s.threads && s.threads[c].pc.Idle?
    case Hangup(c) => c in s.threads && s.threads[c].pc.Idle?
    case Deliver(c, x, _) => c in s.threads && Sending(s.threads[c].pc) && x in s.threads[c].io.pending
    case Move(c, pick) =>
      && c in s.threads
      && (Sending(s.threads[c].pc) ==> s.threads[c].io.pending == multiset{})
      && (match s.threads[c].pc
          case Hello(h) => !h.Credentials? && (h.RoomsSnap? ==> !WriterPending(s))
          case Looking(_, _) => !WriterPending(s)
          case Creating(_, _) => s.readers == {}
          case InRoom(r) => CanMove(cfg, s.threads[c].mem, s.rm, r, pick)
          case Bye(b) => b.Quitting? && b.todo != {} ==> pick in b.todo
          case _ => false)
  }

  predicate CanMove(cfg: Config, mem: Mem, rm: Rooms, r: RoomPc, pick: Ptr) {
    && (r.HasCheck? || r.LeaveLock? || r.EnterLock? ==> r.room in rm.members)
    && (r.HasCheck? && !cfg.multi && mem.index != map[] ==> pick in mem.index.Values)
  }

  function Apply(cfg: Config, s: State, a: Action): State
    requires Enabled(cfg, s, a)
  {
    match a
    case Accept => Put(s, s.nextId + 1, Fresh(cfg, s.nextId + 1)).(nextId := s.nextId + 1)
    case Login(c, u) =>
      var first := First(s.conns, c, u);
      Put(s, c, s.threads[c].(user := u, first := first, pc := Hello(AuthSnap(first))))
      .(conns := SetAuth(s.conns, c, u))
    case Fail(c) =>
      Put(s, c, s.threads[c].(pc := if s.threads[c].pc == Hello(Connecting) then Bye(Revoking) else Done))
    case Ask(c, req) => Put(s, c, OnRequest(s.threads[c], req))
    case Hangup(c) => Put(s, c, s.threads[c].(pc := Bye(QuitSnap)))
    case Deliver(c, x, ok) =>
      var t := OnSent(s.threads[c], x, ok);
      Put(s, c, t)
      .(sent := s.sent + multiset{x},
        readers := if s.threads[c].pc == Hello(RoomsList) && !ok then s.readers - {c} else s.readers)
    case Move(c, pick) =>
      match s.threads[c].pc
      case Hello(h) => OnHello(s, c, h)
      case Looking(id, join) => Put(s, c, OnLookup(s.threads[c], s.rm, id, join))
      case Creating(id, public) =>
        var e := OnCreate(c, s.threads[c], s.rm, id, public);
        Put(s, c, e.t).(rm := e.rm)
      case InRoom(r) =>
        var e := OnRoom(cfg, c, s.threads[c], s.rm, s.table, r, pick);
        Put(s, c, e.t).(rm := e.rm)
      case Bye(b) => OnBye(cfg, s, c, b, pick)
  }

  // The effect of a step on its own thread and on the rooms.
  datatype Effect = Effect(t: Thread, rm: Rooms)

  // A request is refused unless something else comes of it.
  function OnRequest(t: Thread, req: Request): Thread {
    t.(mem := t.mem.(reply := Refused, plan := NoPlan),
       pc := match req
             case JoinRequest(id) => Looking(id, true)
             case LeftRequest(id) => Looking(id, false)
             case CreateRequest(id, public) => Creating(id, public))
  }

  // The lookups at the head of OnRoomEvent.
  function OnLookup(t: Thread, rm: Rooms, id: string, join: bool): Thread {
    t.(pc := if id !in rm.table then Idle
             else InRoom(if join then HasCheck(rm.table[id]) else LeaveLock(rm.table[id], Answer)))
  }

  // RoomManager.Create, under its write lock, and the choice of whom to tell.
  function OnCreate(c: Cid, t: Thread, rm: Rooms, id: string, public: bool): Effect {
    if id in rm.table then Effect(t.(pc := Idle), rm) else
    var p := Ptr(rm.nextSerial, id, public, c);
    Effect(t.(mem := t.mem.(creates := t.mem.creates + 1, plan := Entering(p, None, |t.mem.index|)),
              pc := InRoom(if public then CreateSnap(p) else CreateCast(p)),
              io := if public then t.io else One(Send(c, RoomCreate(id)))),
           Rooms(rm.table[id := p], rm.members[p := {}], rm.nextSerial + 1))
  }

  // One attempted send. The two lists of onJoin and the one of SendPublicRooms stop at their first error, and
  // any error inside CheckAuth ends the connection; Broadcast and the sends of Room.Join go on.
  function OnSent(t: Thread, x: Send, ok: bool): Thread {
    var sent := t.(io := t.io.(pending := t.io.pending - multiset{x}));
    if ok then sent else
    match t.pc
    case Hello(h) =>
      (match h
       case Credentials => t.(pc := Done, io := NO_IO)
       case AuthList(_) => t.(pc := Done, io := NO_IO, failed := t.failed.(list := true, auth := true))
       case Passing => t.(pc := Done, io := NO_IO, failed := t.failed.(auth := true))
       case AuthCast => sent.(failed := t.failed.(cast := true))
       case JoinList => t.(pc := Hello(RoomsSnap), io := NO_IO, failed := t.failed.(join := true))
       case JoinCast => sent.(failed := t.failed.(join := true))
       case RoomsList => t.(pc := Idle, io := NO_IO, failed := t.failed.(list := true))
       case _ => sent)
    case _ => sent
  }

  // ProcessEventAuth after the credentials, AddClient, onJoin and SendPublicRooms.
  function OnHello(s: State, c: Cid, h: HelloPc): State
    requires c in s.threads
  {
    var t := s.threads[c];
    match h
    case Credentials => s
    case AuthSnap(first) =>
      Put(s, c, t.(pc := Hello(AuthList(first)),
                   io := Io(TellUsers(c, Others(s.conns, t.user)), multiset{})))
    case AuthList(first) =>
      Put(s, c, if first then t.(pc := Hello(AuthCastSnap))
                else t.(pc := Hello(Passing), io := One(Send(c, AuthPass))))
    case AuthCastSnap =>
      Put(s, c, t.(pc := Hello(AuthCast),
                   io := Io(Fan(OtherClients(s.conns, t.user), AuthJoin(t.user)), multiset{})))
    case AuthCast =>
      Put(s, c, if t.failed.cast then t.(pc := Done, failed := t.failed.(auth := true))
                else t.(pc := Hello(Passing), io := One(Send(c, AuthPass))))
    case Passing => Put(s, c, t.(pc := Hello(Connecting)))
    case Connecting => Put(s, c, t.(pc := Hello(JoinSnap))).(table := s.table + {c})
    case JoinSnap =>
      Put(s, c, t.(pc := Hello(JoinList),
                   io := Io(TellClients(c, s.table - {c}), multiset{})))
    case JoinList => Put(s, c, t.(pc := Hello(JoinCastSnap)))
    case JoinCastSnap =>
      Put(s, c, t.(pc := Hello(JoinCast), io := Io(Fan(s.table - {c}, UserJoin(c)), multiset{})))
    case JoinCast => Put(s, c, t.(pc := Hello(RoomsSnap)))
    case RoomsSnap =>
      Put(s, c, t.(pc := Hello(RoomsList), io := Io(TellRooms(c, s.rm.table), multiset{})))
      .(readers := s.readers + {c})
    case RoomsList => Put(s, c, t.(pc := Idle)).(readers := s.readers - {c})
  }

  // The rest of OnRoomEvent, with Room.Left and Room.Join.
  function OnRoom(cfg: Config, c: Cid, t: Thread, rm: Rooms, table: set<Cid>, r: RoomPc, pick: Ptr): Effect
    requires CanMove(cfg, t.mem, rm, r, pick)
  {
    match r
    case HasCheck(p) =>
      var m := t.mem;
      if c in rm.members[p] then Effect(t.(pc := Idle), rm)
      else if cfg.multi && cfg.limit > 0 && |m.index| >= cfg.limit then Effect(t.(pc := Idle), rm)
      else if !cfg.multi && m.index != map[] then
        Effect(t.(pc := InRoom(LeaveLock(pick, Enter(p))), mem := m.(plan := Entering(p, Some(pick), |m.index|))), rm)
      else
        Effect(t.(pc := InRoom(EnterLock(p)), mem := m.(plan := Entering(p, None, |m.index|))), rm)
    case LeaveLock(p, k) =>
      if c in rm.members[p] then
        Effect(t.(pc := InRoom(LeaveIndex(p, k)), io := Io(Fan(rm.members[p], RoomLeft(c, p.id)), multiset{})),
               rm.(members := rm.members[p := rm.members[p] - {c}]))
      else
        Effect(t.(pc := if k.QuitRest? then Bye(Quitting(k.todo)) else Idle), rm)
    case LeaveIndex(p, k) =>
      Effect(t.(pc := InRoom(LeaveCast(k)), mem := t.mem.(index := t.mem.index - {p.id})), rm)
    case LeaveCast(k) =>
      Effect(match k
             case Answer => t.(pc := Idle, mem := t.mem.(reply := Ok))
             case Enter(q) => t.(pc := InRoom(EnterLock(q)))
             case QuitRest(todo) => t.(pc := Bye(Quitting(todo))), rm)
    case CreateSnap(p) =>
      Effect(t.(pc := InRoom(CreateCast(p)), io := Io(Fan(table, RoomCreate(p.id)), multiset{})), rm)
    case CreateCast(p) => Effect(t.(pc := InRoom(EnterLock(p))), rm)
    case EnterLock(p) =>
      if c in rm.members[p] then Effect(t.(pc := Idle), rm)
      else
        Effect(t.(pc := InRoom(EnterIndex(p)),
                  io := Io(Fan(rm.members[p] + {c}, RoomJoin(c, p.id)),
                           TellMembers(c, rm.members[p], p.id))),
               rm.(members := rm.members[p := rm.members[p] + {c}]))
    case EnterIndex(p) => Effect(t.(pc := InRoom(EnterCast(p)), mem := t.mem.(index := t.mem.index[p.id := p])), rm)
    case EnterCast(p) => Effect(t.(pc := InRoom(EnterList(p)), io := Io(t.io.later, multiset{})), rm)
    case EnterList(p) => Effect(t.(pc := Idle, mem := t.mem.(reply := Ok)), rm)
  }

  // The deferred calls in their order: RoomClientQuit, onLeft, RemoveClient, RevokeAuth.
  function OnBye(cfg: Config, s: State, c: Cid, b: ByePc, pick: Ptr): State
    requires c in s.threads
  {
    var t := s.threads[c];
    match b
    case QuitSnap => Put(s, c, t.(pc := Bye(Quitting(t.mem.index.Values))))
    case Quitting(todo) =>
      Put(s, c, t.(pc := if todo == {} then Bye(LeftSnap) else InRoom(LeaveLock(pick, QuitRest(todo - {pick})))))
    case LeftSnap =>
      Put(s, c, t.(pc := Bye(LeftCast), io := Io(Fan(s.table - {c}, UserLeft(c)), multiset{})))
    case LeftCast => Put(s, c, t.(pc := Bye(Removing)))
    case Removing => Put(s, c, t.(pc := Bye(Revoking))).(table := s.table - {c})
    case Revoking =>
      // without a ConnManager channel there is nothing to revoke
      if cfg.auth && c in s.conns.clients then
        Put(s, c, t.(pc := if AnyLeft(s.conns, c) then Done else Bye(RevokeSnap))).(conns := RemoveAuth(s.conns, c))
      else Put(s, c, t.(pc := Done))
    case RevokeSnap =>
      Put(s, c, t.(pc := Bye(RevokeCast),
                   io := Io(Fan(OtherClients(s.conns, t.user), AuthLeft(t.user)), multiset{})))
    case RevokeCast => Put(s, c, t.(pc := Done))
  }

  ghost predicate Next(cfg: Config, s: State, s': State) {
    exists a :: Enabled(cfg, s, a) && s' == Apply(cfg, s, a)
  }

  // Every prefix of every schedule.
  ghost predicate IsRun(cfg: Config, run: seq<State>) {
    && |run| > 0 && run[0] == Init()
    && forall i :: 0 < i < |run| ==> Next(cfg, run[i - 1], run[i])
  }

  // The states that can occur.
  ghost predicate Reachable(cfg: Config, s: State) {
    exists run :: IsRun(cfg, run) && run[|run| - 1] == s
  }

  // The connection a step belongs to.
  function Actor(s: State, a: Action): Cid {
    if a.Accept? then s.nextId + 1 else a.c
  }

  lemma RunPrefix(cfg: Config, run: seq<State>)
    requires IsRun(cfg, run) && |run| > 1
    ensures IsRun(cfg, run[..|run| - 1]) && Next(cfg, run[|run| - 2], run[|run| - 1])
  {
    var pre := run[..|run| - 1];
    forall i | 0 < i < |pre|
      ensures Next(cfg, pre[i - 1], pre[i])
    {
      assert Next(cfg, run[i - 1], run[i]);
    }
  }

  lemma ReachInit(cfg: Config)
    ensures Reachable(cfg, Init())
  {
    assert IsRun(cfg, [Init()]);
  }

  lemma ReachNext(cfg: Config, s: State, a: Action)
    requires Reachable(cfg, s) && Enabled(cfg, s, a)
    ensures Reachable(cfg, Apply(cfg, s, a))
  {
    hide Enabled, Apply;
    var run :| IsRun(cfg, run) && run[|run| - 1] == s;
    var run' := run + [Apply(cfg, s, a)];
    forall i | 0 < i < |run'|
      ensures Next(cfg, run'[i - 1], run'[i])
    {
      if i < |run| {
        assert Next(cfg, run[i - 1], run[i]);
      }
    }
    assert IsRun(cfg, run');
  }
}
