// Who is in which room: agreement of the two indexes, success of every checked join, bounds and clean-up.
module ProtocolMembership {
  import opened Common
  import opened ConnSpec
  import opened Protocol
  import opened RoomSpec

  // ---- What the invariant says about one connection -------------------------------------------------------

  // A room holds c exactly when c's index lists it, except between c's locked section and its index update.
  predicate Holds(m: Mem, pc: Pc, p: Ptr) {
    || (p.id in m.index && m.index[p.id] == p && !(pc.InRoom? && pc.r.LeaveIndex? && pc.r.room == p))
    || pc == InRoom(EnterIndex(p))
  }

  // Every room a thread refers to exists.
  predicate Knows(rm: Rooms, m: Mem, pc: Pc) {
    && (pc.InRoom? && !pc.r.LeaveCast? ==> pc.r.room in rm.members)
    && (pc.InRoom? && (pc.r.LeaveLock? || pc.r.LeaveIndex? || pc.r.LeaveCast?) ==> KnowsAfter(rm, pc.r.after))
    && (pc.Bye? && pc.b.Quitting? ==> pc.b.todo <= rm.members.Keys)
    && (m.plan.Entering? ==>
          m.plan.room in rm.members && (m.plan.leaving.Some? ==> m.plan.leaving.value in rm.members))
    && forall id :: id in m.index ==> m.index[id].id == id && m.index[id] in rm.members
  }

  predicate KnowsAfter(rm: Rooms, k: Then) {
    match k
    case Answer => true
    case Enter(q) => q in rm.members
    case QuitRest(todo) => todo <= rm.members.Keys
  }

  // The bound on n rooms held by a client with this many successful creates.
  predicate Within(cfg: Config, n: int, creates: nat) {
    && (!cfg.multi ==> n <= 1 + creates)
    && (cfg.multi && cfg.limit > 0 ==> n <= cfg.limit + creates)
  }

  // About to enter q, with the room to leave already left.
  predicate Ready(cfg: Config, m: Mem, q: Ptr) {
    && m.plan.Entering? && m.plan.room == q && q.id !in m.index
    && (m.plan.leaving.Some? ==>
          && !cfg.multi && m.plan.leaving.value.id !in m.index && m.plan.leaving.value.id != q.id
          && |m.index| + 1 == m.plan.held)
    && Within(cfg, |m.index| + 1, m.creates)
  }

  // About to leave p in order to enter q.
  predicate Switching(cfg: Config, m: Mem, p: Ptr, q: Ptr) {
    && m.plan == Entering(q, Some(p), |m.index|)
    && !cfg.multi && p.id in m.index && m.index[p.id] == p && q.id !in m.index
  }

  // The plan has been carried out.
  predicate Entered(m: Mem) {
    && m.plan.Entering? && m.plan.room.id in m.index && m.index[m.plan.room.id] == m.plan.room
    && (m.plan.leaving.Some? ==> m.plan.leaving.value.id !in m.index && |m.index| == m.plan.held)
  }

  // Every room held is still to be left.
  predicate Listed(m: Mem, todo: set<Ptr>) {
    forall id :: id in m.index ==> m.index[id] in todo
  }

  predicate LeavingOk(cfg: Config, m: Mem, p: Ptr, k: Then) {
    match k
    case Answer => m.plan.NoPlan?
    case Enter(q) => Switching(cfg, m, p, q)
    case QuitRest(todo) => Listed(m, todo + {p})
  }

  predicate LeftOk(cfg: Config, m: Mem, k: Then) {
    match k
    case Answer => m.plan.NoPlan?
    case Enter(q) => Ready(cfg, m, q)
    case QuitRest(todo) => Listed(m, todo)
  }

  predicate RoomPcOk(cfg: Config, m: Mem, r: RoomPc) {
    match r
    case HasCheck(_) => m.plan.NoPlan?
    case LeaveLock(p, k) => LeavingOk(cfg, m, p, k)
    case LeaveIndex(p, k) => LeavingOk(cfg, m, p, k) && p.id in m.index && m.index[p.id] == p
    case LeaveCast(k) => LeftOk(cfg, m, k)
    case CreateSnap(p) => Ready(cfg, m, p)
    case CreateCast(p) => Ready(cfg, m, p)
    case EnterLock(p) => Ready(cfg, m, p)
    case EnterIndex(p) => Ready(cfg, m, p)
    case EnterCast(p) => Entered(m) && m.plan.room == p
    case EnterList(p) => Entered(m) && m.plan.room == p
  }

  predicate ThreadOk(cfg: Config, m: Mem, pc: Pc) {
    && Within(cfg, |m.index|, m.creates)
    && match pc
       case Hello(_) => m.index == map[] && m.plan.NoPlan?
       case Idle => m.plan.Entering? ==> m.reply == Ok && Entered(m)
       case Looking(_, _) => m.plan.NoPlan?
       case Creating(_, _) => m.plan.NoPlan?
       case InRoom(r) => RoomPcOk(cfg, m, r)
       case Bye(b) => if b.QuitSnap? then true else if b.Quitting? then Listed(m, b.todo) else m.index == map[]
       case Done => m.index == map[]
  }

  ghost predicate MemberOk(rm: Rooms, c: Cid, m: Mem, pc: Pc) {
    forall p :: p in rm.members ==> (c in rm.members[p] <==> Holds(m, pc, p))
  }

  // One room object for one id, and every registered room exists.
  ghost predicate RoomsOk(rm: Rooms) {
    && (forall id :: id in rm.table ==> rm.table[id].id == id && rm.table[id] in rm.members)
    && (forall p :: p in rm.members ==> p.id in rm.table && rm.table[p.id] == p)
    && (forall p :: p in rm.members ==> p.serial < rm.nextSerial)
  }

  // What a step of c can do to the rooms: only c's own membership changes, rooms only ever appear, and a new one
  // is empty.
  ghost predicate Framed(rm: Rooms, rm': Rooms, c: Cid) {
    && (forall p :: p in rm.members ==> p in rm'.members && rm'.members[p] - {c} == rm.members[p] - {c})
    && (forall p :: p in rm'.members && p !in rm.members ==> rm'.members[p] == {})
    && (forall id :: id in rm.table ==> id in rm'.table && rm'.table[id] == rm.table[id])
  }

  ghost predicate Own(cfg: Config, rm: Rooms, c: Cid, m: Mem, pc: Pc) {
    Knows(rm, m, pc) && MemberOk(rm, c, m, pc) && ThreadOk(cfg, m, pc)
  }

  ghost predicate IdsOk(s: State) {
    && (forall c :: c in s.threads ==> c <= s.nextId)
    && (forall p, c :: p in s.rm.members && c in s.rm.members[p] ==> c in s.threads)
  }

  ghost predicate Inv(cfg: Config, s: State) {
    && RoomsOk(s.rm) && IdsOk(s)
    && forall c :: c in s.threads ==> Own(cfg, s.rm, c, s.threads[c].mem, s.threads[c].pc)
  }

  // ---- Room steps -----------------------------------------------------------------------------------------

  lemma RequestOwn(cfg: Config, c: Cid, t: Thread, rm: Rooms, req: Request)
    requires RoomsOk(rm) && Own(cfg, rm, c, t.mem, t.pc) && t.pc.Idle?
    ensures var t' := OnRequest(t, req);
            Own(cfg, rm, c, t'.mem, t'.pc)
  {
  }

  lemma LookupOwn(cfg: Config, c: Cid, t: Thread, rm: Rooms, id: string, join: bool)
    requires RoomsOk(rm) && Own(cfg, rm, c, t.mem, t.pc) && t.pc == Looking(id, join)
    ensures var t' := OnLookup(t, rm, id, join);
            Own(cfg, rm, c, t'.mem, t'.pc)
  {
  }

  lemma CreateRooms(cfg: Config, c: Cid, t: Thread, rm: Rooms, id: string, public: bool)
    requires RoomsOk(rm) && Knows(rm, t.mem, t.pc) && t.pc == Creating(id, public)
    ensures var e := OnCreate(c, t, rm, id, public);
            RoomsOk(e.rm) && Framed(rm, e.rm, c) && Knows(e.rm, e.t.mem, e.t.pc)
  {
  }

  lemma CreateThread(cfg: Config, c: Cid, t: Thread, rm: Rooms, id: string, public: bool)
    requires RoomsOk(rm) && Own(cfg, rm, c, t.mem, t.pc) && t.pc == Creating(id, public)
    ensures var e := OnCreate(c, t, rm, id, public);
            MemberOk(e.rm, c, e.t.mem, e.t.pc) && ThreadOk(cfg, e.t.mem, e.t.pc)
  {
  }

  lemma RoomStepFrame(cfg: Config, c: Cid, t: Thread, rm: Rooms, table: set<Cid>, r: RoomPc, pick: Ptr)
    requires CanMove(cfg, t.mem, rm, r, pick) && t.pc == InRoom(r) && RoomsOk(rm)
    ensures var e := OnRoom(cfg, c, t, rm, table, r, pick);
            RoomsOk(e.rm) && Framed(rm, e.rm, c)
  {
    if !r.LeaveLock? && !r.EnterLock? {
      assert OnRoom(cfg, c, t, rm, table, r, pick).rm == rm;
    }
  }

  lemma RoomStepKnows(cfg: Config, c: Cid, t: Thread, rm: Rooms, table: set<Cid>, r: RoomPc, pick: Ptr)
    requires CanMove(cfg, t.mem, rm, r, pick) && t.pc == InRoom(r) && Knows(rm, t.mem, t.pc)
    ensures var e := OnRoom(cfg, c, t, rm, table, r, pick);
            Knows(e.rm, e.t.mem, e.t.pc)
  {
  }

  lemma LeaveMember(cfg: Config, c: Cid, t: Thread, rm: Rooms, table: set<Cid>, r: RoomPc, pick: Ptr)
    requires CanMove(cfg, t.mem, rm, r, pick) && t.pc == InRoom(r) && RoomsOk(rm) && Own(cfg, rm, c, t.mem, t.pc)
    requires r.LeaveLock? || r.LeaveIndex? || r.LeaveCast?
    ensures var e := OnRoom(cfg, c, t, rm, table, r, pick);
            MemberOk(e.rm, c, e.t.mem, e.t.pc)
  {
    hide Fan, TellMembers, Within;
    if r.LeaveLock? {
      assert c in rm.members[r.room] <==> Holds(t.mem, t.pc, r.room);
    }
  }

  lemma EnterMember(cfg: Config, c: Cid, t: Thread, rm: Rooms, table: set<Cid>, r: RoomPc, pick: Ptr)
    requires CanMove(cfg, t.mem, rm, r, pick) && t.pc == InRoom(r) && RoomsOk(rm) && Own(cfg, rm, c, t.mem, t.pc)
    requires !(r.LeaveLock? || r.LeaveIndex? || r.LeaveCast?)
    ensures var e := OnRoom(cfg, c, t, rm, table, r, pick);
            MemberOk(e.rm, c, e.t.mem, e.t.pc)
  {
    hide Fan, TellMembers, Within;
  }

  lemma LeaveThread(cfg: Config, c: Cid, t: Thread, rm: Rooms, table: set<Cid>, r: RoomPc, pick: Ptr)
    requires CanMove(cfg, t.mem, rm, r, pick) && t.pc == InRoom(r) && RoomsOk(rm) && Own(cfg, rm, c, t.mem, t.pc)
    requires r.LeaveLock? || r.LeaveCast?
    ensures var e := OnRoom(cfg, c, t, rm, table, r, pick);
            ThreadOk(cfg, e.t.mem, e.t.pc)
  {
    hide Fan, TellMembers, Within, Knows, MemberOk, RoomsOk;
    if r.LeaveLock? {
      Remembered(cfg, rm, c, t.mem, t.pc, r.room);
    }
  }

  // A thread about to leave p is in p exactly when its index lists it, and the index lists rooms by their ids.
  lemma Remembered(cfg: Config, rm: Rooms, c: Cid, m: Mem, pc: Pc, p: Ptr)
    requires Own(cfg, rm, c, m, pc) && p in rm.members
    ensures c in rm.members[p] <==> Holds(m, pc, p)
    ensures forall id :: id in m.index ==> m.index[id].id == id
  {
  }

  lemma LeaveIndexThread(cfg: Config, c: Cid, t: Thread, rm: Rooms, table: set<Cid>, r: RoomPc, pick: Ptr)
    requires CanMove(cfg, t.mem, rm, r, pick) && t.pc == InRoom(r) && Own(cfg, rm, c, t.mem, t.pc)
    requires r.LeaveIndex?
    ensures var e := OnRoom(cfg, c, t, rm, table, r, pick);
            ThreadOk(cfg, e.t.mem, e.t.pc)
  {
    var m' := t.mem.index - {r.room.id};
    assert m'.Keys == t.mem.index.Keys - {r.room.id};
    assert |m'| == |t.mem.index| - 1;
  }

  lemma CheckThread(cfg: Config, c: Cid, t: Thread, rm: Rooms, table: set<Cid>, r: RoomPc, pick: Ptr)
    requires CanMove(cfg, t.mem, rm, r, pick) && t.pc == InRoom(r) && RoomsOk(rm) && Own(cfg, rm, c, t.mem, t.pc)
    requires r.HasCheck?
    ensures var e := OnRoom(cfg, c, t, rm, table, r, pick);
            ThreadOk(cfg, e.t.mem, e.t.pc)
  {
  }

  lemma EnterThread(cfg: Config, c: Cid, t: Thread, rm: Rooms, table: set<Cid>, r: RoomPc, pick: Ptr)
    requires CanMove(cfg, t.mem, rm, r, pick) && t.pc == InRoom(r) && RoomsOk(rm) && Own(cfg, rm, c, t.mem, t.pc)
    requires !(r.LeaveLock? || r.LeaveIndex? || r.LeaveCast? || r.HasCheck?)
    ensures var e := OnRoom(cfg, c, t, rm, table, r, pick);
            ThreadOk(cfg, e.t.mem, e.t.pc)
  {
    if r.EnterIndex? {
      var m' := t.mem.index[r.room.id := r.room];
      assert m'.Keys == t.mem.index.Keys + {r.room.id};
      assert |m'| == |t.mem.index| + 1;
    }
  }

  lemma RoomStep(cfg: Config, c: Cid, t: Thread, rm: Rooms, table: set<Cid>, r: RoomPc, pick: Ptr)
    requires CanMove(cfg, t.mem, rm, r, pick) && t.pc == InRoom(r) && RoomsOk(rm) && Own(cfg, rm, c, t.mem, t.pc)
    ensures var e := OnRoom(cfg, c, t, rm, table, r, pick);
            RoomsOk(e.rm) && Framed(rm, e.rm, c) && Own(cfg, e.rm, c, e.t.mem, e.t.pc)
  {
    hide Knows, MemberOk, ThreadOk, OnRoom, RoomsOk, Framed;
    RoomStepFrame(cfg, c, t, rm, table, r, pick);
    RoomStepKnows(cfg, c, t, rm, table, r, pick);
    if r.LeaveLock? || r.LeaveCast? {
      LeaveMember(cfg, c, t, rm, table, r, pick);
      LeaveThread(cfg, c, t, rm, table, r, pick);
    } else if r.LeaveIndex? {
      LeaveMember(cfg, c, t, rm, table, r, pick);
      LeaveIndexThread(cfg, c, t, rm, table, r, pick);
    } else {
      EnterMember(cfg, c, t, rm, table, r, pick);
      if r.HasCheck? {
        CheckThread(cfg, c, t, rm, table, r, pick);
      } else {
        EnterThread(cfg, c, t, rm, table, r, pick);
      }
    }
  }

  // ---- All other steps: the rooms and everything c remembers about them stay ---------------------------------

  // Moves between program counters that promise the same about the rooms.
  predicate QuietMove(pc: Pc, pc': Pc) {
    match pc
    case Hello(_) => pc'.Hello? || pc'.Idle? || pc'.Done? || pc' == Bye(Revoking)
    case Idle => pc'.Idle? || pc' == Bye(QuitSnap)
    case Looking(_, _) => pc' == pc
    case Creating(_, _) => pc' == pc
    case InRoom(_) => pc' == pc
    case Bye(b) =>
      if b.QuitSnap? || b.Quitting? then pc' == pc
      else pc'.Done? || (pc'.Bye? && !pc'.b.QuitSnap? && !pc'.b.Quitting?)
    case Done => pc'.Done?
  }

  lemma QuietOwn(cfg: Config, rm: Rooms, c: Cid, m: Mem, pc: Pc, pc': Pc)
    requires Own(cfg, rm, c, m, pc) && QuietMove(pc, pc')
    ensures Own(cfg, rm, c, m, pc')
  {
  }

  // RoomClientQuit's snapshot of the rooms and its loop.
  lemma QuitOwn(cfg: Config, rm: Rooms, c: Cid, m: Mem, b: ByePc, pick: Ptr)
    requires Own(cfg, rm, c, m, Bye(b))
    requires b.QuitSnap? || b.Quitting?
    requires b.Quitting? && b.todo != {} ==> pick in b.todo
    ensures Own(cfg, rm, c, m,
                if b.QuitSnap? then Bye(Quitting(m.index.Values))
                else if b.todo == {} then Bye(LeftSnap) else InRoom(LeaveLock(pick, QuitRest(b.todo - {pick}))))
  {
    if b.Quitting? && b.todo == {} {
      assert m.index == map[];
    }
  }

  // Everybody else's part survives a step of c.
  lemma OthersOwn(cfg: Config, rm: Rooms, rm': Rooms, c: Cid, d: Cid, m: Mem, pc: Pc)
    requires Framed(rm, rm', c) && d != c && Own(cfg, rm, d, m, pc)
    requires RoomsOk(rm) && RoomsOk(rm')
    ensures Own(cfg, rm', d, m, pc)
  {
    forall p | p in rm'.members
      ensures d in rm'.members[p] <==> Holds(m, pc, p)
    {
      if p in rm.members {
        assert d in rm'.members[p] <==> d in rm'.members[p] - {c};
        assert d in rm.members[p] <==> d in rm.members[p] - {c};
      }
    }
  }

  lemma StepThreads(cfg: Config, s: State, a: Action)
    requires Enabled(cfg, s, a)
    ensures var s', c := Apply(cfg, s, a), Actor(s, a);
            && c in s'.threads && s'.threads == s.threads[c := s'.threads[c]]
            && s'.nextId == (if a.Accept? then s.nextId + 1 else s.nextId)
            && (a.Accept? || c in s.threads)
  {
    hide Fan, TellUsers, TellClients, TellRooms, TellMembers, SetAuth, RemoveAuth, First, AnyLeft, Others;
    hide OtherClients, Of;
  }

  // A connection starts afresh, and only what is pending is sent.
  lemma NewThread(cfg: Config, s: State, a: Action, s': State)
    requires Enabled(cfg, s, a) && s' == Apply(cfg, s, a)
    ensures a.Accept? ==> s'.threads[s.nextId + 1] == Fresh(cfg, s.nextId + 1)
    ensures a.Deliver? ==> a.x in s.threads[a.c].io.pending
  {
  }

  // The program counters of room requests and of RoomClientQuit.
  predicate AboutRooms(pc: Pc) {
    match pc
    case Looking(_, _) => true
    case Creating(_, _) => true
    case InRoom(_) => true
    case Bye(b) => b.QuitSnap? || b.Quitting?
    case _ => false
  }

  // The steps that are neither a room request nor a move of one.
  predicate Elsewhere(s: State, a: Action) {
    match a
    case Ask(_, _) => false
    case Move(c, _) => c in s.threads && !AboutRooms(s.threads[c].pc)
    case _ => true
  }

  lemma QuietStep(cfg: Config, s: State, a: Action)
    requires Enabled(cfg, s, a) && Elsewhere(s, a)
    ensures var s' := Apply(cfg, s, a);
            && s'.rm == s.rm
            && (!a.Accept? ==>
                  && s'.threads[a.c].mem == s.threads[a.c].mem
                  && QuietMove(s.threads[a.c].pc, s'.threads[a.c].pc))
  {
    hide WriterPending, OnRoom, OnCreate, OnLookup, OnHello, OnBye;
    if a.Move? {
      match s.threads[a.c].pc {
        case Hello(h) => QuietHello(s, a.c, h);
        case Bye(b) => QuietBye(cfg, s, a.c, b, a.pick);
        case _ =>
      }
    } else {
      hide SetAuth, First;
    }
  }

  lemma QuietHello(s: State, c: Cid, h: HelloPc)
    requires c in s.threads && s.threads[c].pc == Hello(h)
    ensures var s' := OnHello(s, c, h);
            && s'.rm == s.rm && c in s'.threads && s'.threads[c].mem == s.threads[c].mem
            && QuietMove(s.threads[c].pc, s'.threads[c].pc)
  {
    hide Fan, TellUsers, TellClients, TellRooms, Others, OtherClients;
  }

  lemma QuietBye(cfg: Config, s: State, c: Cid, b: ByePc, pick: Ptr)
    requires c in s.threads && s.threads[c].pc == Bye(b) && !b.QuitSnap? && !b.Quitting?
    ensures var s' := OnBye(cfg, s, c, b, pick);
            && s'.rm == s.rm && c in s'.threads && s'.threads[c].mem == s.threads[c].mem
            && QuietMove(s.threads[c].pc, s'.threads[c].pc)
  {
    hide Fan, RemoveAuth, AnyLeft, OtherClients;
  }

  lemma StepOwn(cfg: Config, s: State, a: Action)
    requires Enabled(cfg, s, a) && Inv(cfg, s)
    ensures var s', c := Apply(cfg, s, a), Actor(s, a);
            && RoomsOk(s'.rm) && Framed(s.rm, s'.rm, c)
            && c in s'.threads && Own(cfg, s'.rm, c, s'.threads[c].mem, s'.threads[c].pc)
  {
    hide Knows, MemberOk, ThreadOk, RoomsOk, OnRoom, OnRequest, OnLookup, OnCreate, OnHello, OnSent, WriterPending;
    StepThreads(cfg, s, a);
    if Elsewhere(s, a) {
      QuietStep(cfg, s, a);
      if a.Accept? {
        NewOwn(cfg, s);
      } else {
        QuietOwn(cfg, s.rm, a.c, s.threads[a.c].mem, s.threads[a.c].pc, Apply(cfg, s, a).threads[a.c].pc);
      }
    } else if a.Ask? {
      RequestOwn(cfg, a.c, s.threads[a.c], s.rm, a.req);
    } else if s.threads[a.c].pc.Looking? {
      LookupOwn(cfg, a.c, s.threads[a.c], s.rm, s.threads[a.c].pc.id, s.threads[a.c].pc.join);
    } else if s.threads[a.c].pc.Creating? {
      CreateRooms(cfg, a.c, s.threads[a.c], s.rm, s.threads[a.c].pc.id, s.threads[a.c].pc.public);
      CreateThread(cfg, a.c, s.threads[a.c], s.rm, s.threads[a.c].pc.id, s.threads[a.c].pc.public);
    } else if s.threads[a.c].pc.InRoom? {
      RoomStep(cfg, a.c, s.threads[a.c], s.rm, s.table, s.threads[a.c].pc.r, a.pick);
    } else {
      QuitOwn(cfg, s.rm, a.c, s.threads[a.c].mem, s.threads[a.c].pc.b, a.pick);
    }
  }

  lemma NewOwn(cfg: Config, s: State)
    requires IdsOk(s)
    ensures var c := s.nextId + 1; Own(cfg, s.rm, c, Fresh(cfg, c).mem, Fresh(cfg, c).pc)
  {
    assert forall p :: p in s.rm.members && s.nextId + 1 in s.rm.members[p] ==> s.nextId + 1 in s.threads;
  }

  lemma StepInv(cfg: Config, s: State, a: Action)
    requires Enabled(cfg, s, a) && Inv(cfg, s)
    ensures Inv(cfg, Apply(cfg, s, a))
  {
    hide Knows, MemberOk, ThreadOk, RoomsOk, Apply, Enabled;
    var s', c := Apply(cfg, s, a), Actor(s, a);
    StepThreads(cfg, s, a);
    StepOwn(cfg, s, a);
    forall d | d in s'.threads
      ensures Own(cfg, s'.rm, d, s'.threads[d].mem, s'.threads[d].pc)
    {
      if d != c {
        OthersOwn(cfg, s.rm, s'.rm, c, d, s.threads[d].mem, s.threads[d].pc);
      }
    }
    forall p, d | p in s'.rm.members && d in s'.rm.members[p]
      ensures d in s'.threads
    {
      if d != c {
        assert d in s'.rm.members[p] - {c};
      }
    }
  }

  lemma InitInv(cfg: Config)
    ensures Inv(cfg, Init())
  {
  }

  lemma {:induction false} RunInv(cfg: Config, run: seq<State>)
    requires IsRun(cfg, run)
    ensures Inv(cfg, run[|run| - 1])
  {
    hide Inv, Enabled, Apply;
    InitInv(cfg);
    if |run| > 1 {
      RunPrefix(cfg, run);
      RunInv(cfg, run[..|run| - 1]);
      var a :| Enabled(cfg, run[|run| - 2], a) && run[|run| - 1] == Apply(cfg, run[|run| - 2], a);
      StepInv(cfg, run[|run| - 2], a);
    }
  }

  lemma ReachableInv(cfg: Config, s: State)
    requires Reachable(cfg, s)
    ensures Inv(cfg, s)
  {
    var run :| IsRun(cfg, run) && run[|run| - 1] == s;
    RunInv(cfg, run);
  }

  // ---- What holds in every reachable state --------------------------------------------------------------------

  // The rooms whose clientsMap holds c.
  function Held(rm: Rooms, c: Cid): set<string> {
    set id | id in rm.table && rm.table[id] in rm.members && c in rm.members[rm.table[id]]
  }

  // The two indexes agree, except between a locked section and the index update that follows it.
  lemma IndexAgreement(cfg: Config, s: State, c: Cid, p: Ptr)
    requires Reachable(cfg, s) && c in s.threads && p in s.rm.members
    ensures var t := s.threads[c];
            var listed := p.id in t.mem.index && t.mem.index[p.id] == p;
            && p.id in s.rm.table && s.rm.table[p.id] == p
            && (p.id in t.mem.index ==> t.mem.index[p.id] == p)
            && (if t.pc.InRoom? && t.pc.r.LeaveIndex? && t.pc.r.room == p then c !in s.rm.members[p] && listed
                else if t.pc == InRoom(EnterIndex(p)) then c in s.rm.members[p] && !listed
                else c in s.rm.members[p] <==> listed)
  {
    ReachableInv(cfg, s);
  }

  // No room disappears, no room id ever changes its object, and membership of anybody but the connection that
  // moves is left alone.
  lemma RoomsPersist(cfg: Config, s: State, a: Action)
    requires Reachable(cfg, s) && Enabled(cfg, s, a)
    ensures Framed(s.rm, Apply(cfg, s, a).rm, Actor(s, a))
  {
    ReachableInv(cfg, s);
    StepOwn(cfg, s, a);
  }

  // A join that passed the checks of OnRoomEvent never fails, whatever others do in between: neither locked
  // section takes its error branch, and when the request is answered the client is in the room it asked for, out
  // of the one it left, and holds as many rooms as before if it left one.
  lemma CheckedJoinSucceeds(cfg: Config, s: State, c: Cid)
    requires Reachable(cfg, s) && c in s.threads && s.threads[c].mem.plan.Entering?
    ensures var t := s.threads[c];
            var q := t.mem.plan.room;
            && q in s.rm.members
            && (t.pc == InRoom(EnterLock(q)) ==> c !in s.rm.members[q])
            && (forall p :: t.pc == InRoom(LeaveLock(p, Enter(q))) ==> p in s.rm.members && c in s.rm.members[p])
            && (t.pc.Idle? ==>
                  && t.mem.reply == Ok && c in s.rm.members[q]
                  && (t.mem.plan.leaving.Some? ==>
                        && t.mem.plan.leaving.value in s.rm.members
                        && c !in s.rm.members[t.mem.plan.leaving.value]
                        && |Held(s.rm, c)| == t.mem.plan.held))
  {
    ReachableInv(cfg, s);
    HeldIsIndex(cfg, s, c);
  }

  // The number of rooms a client is in, whatever the interleaving. The create branch checks neither mode nor
  // limit, so every successful create adds one.
  lemma RoomCountBound(cfg: Config, s: State, c: Cid)
    requires Reachable(cfg, s) && c in s.threads
    ensures Within(cfg, |Held(s.rm, c)|, s.threads[c].mem.creates)
  {
    ReachableInv(cfg, s);
    hide Reachable, Inv;
    HeldWithin(cfg, s, c);
  }

  lemma HeldWithin(cfg: Config, s: State, c: Cid)
    requires Inv(cfg, s) && c in s.threads
    ensures Within(cfg, |Held(s.rm, c)|, s.threads[c].mem.creates)
  {
    HeldIsIndex(cfg, s, c);
    var m, pc := s.threads[c].mem, s.threads[c].pc;
    assert ThreadOk(cfg, m, pc);
    assert Within(cfg, |m.index|, m.creates);
    assert pc.InRoom? && pc.r.EnterIndex? ==> Within(cfg, |m.index| + 1, m.creates);
    hide Inv, Held, ThreadOk, RoomPcOk, Ready;
  }

  lemma HeldIsIndex(cfg: Config, s: State, c: Cid)
    requires Inv(cfg, s) && c in s.threads
    ensures var t := s.threads[c];
            var keys := t.mem.index.Keys;
            Held(s.rm, c) ==
            if t.pc.InRoom? && t.pc.r.LeaveIndex? then keys - {t.pc.r.room.id}
            else if t.pc.InRoom? && t.pc.r.EnterIndex? then keys + {t.pc.r.room.id}
            else keys
    ensures var t := s.threads[c];
            |Held(s.rm, c)| <= |t.mem.index| + if t.pc.InRoom? && t.pc.r.EnterIndex? then 1 else 0
  {
    var t := s.threads[c];
    var keys := t.mem.index.Keys;
    forall id
      ensures id in Held(s.rm, c) <==>
              if t.pc.InRoom? && t.pc.r.LeaveIndex? then id in keys && id != t.pc.r.room.id
              else if t.pc.InRoom? && t.pc.r.EnterIndex? then id in keys || id == t.pc.r.room.id
              else id in keys
    {
      if id in keys {
        assert t.mem.index[id] in s.rm.members;
      }
    }
  }
}
