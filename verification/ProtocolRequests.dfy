// What comes of a room request, in every interleaving: it is answered and carried out as if all at once, at some point
// between the request and its answer.
module ProtocolRequests {
  import opened ConnSpec
  import opened Protocol
  import opened RoomSpec
  import Membership = ProtocolMembership

  // Who is in which room.
  ghost function Members(rm: Rooms): map<string, set<Cid>> {
    map id | id in rm.table && rm.table[id] in rm.members :: rm.members[rm.table[id]]
  }

  ghost predicate Refused(cfg: Config, s: State, c: Cid, req: Request)
    requires c in s.threads
  {
    Refuses(Members(s.rm), c, |s.threads[c].mem.index|, req, cfg.multi, cfg.limit)
  }

  // ---- Where a request is -------------------------------------------------------------------------------------------

  // It waits to be looked at.
  predicate Waits(was: map<string, Ptr>, req: Request, t: Thread) {
    && t.mem.index == was && t.mem.reply == Reply.Refused && t.mem.plan.NoPlan?
    && t.pc == match req
               case JoinRequest(id) => Looking(id, true)
               case LeftRequest(id) => Looking(id, false)
               case CreateRequest(id, public) => Creating(id, public)
  }

  // The room p is on its way to be entered, from was.
  predicate Heads(cfg: Config, c: Cid, req: Request, was: map<string, Ptr>, m: Mem, p: Ptr) {
    && !req.LeftRequest? && p.id == req.room && p.id !in was && m.plan.Entering? && m.reply == Reply.Refused
    && (if req.CreateRequest? || cfg.multi || was == map[] then m.plan.leaving.None?
        else m.plan.leaving.Some? && m.plan.leaving.value.id in was)
    && (req.CreateRequest? ==> p.public == req.public && p.creator == c)
  }

  // The index without the room that is left, if any.
  function Without(was: map<string, Ptr>, plan: Plan): map<string, Ptr>
    requires plan.Entering?
  {
    if plan.leaving.Some? then was - {plan.leaving.value.id} else was
  }

  predicate CheckOk(cfg: Config, req: Request, no: bool, was: map<string, Ptr>, m: Mem, p: Ptr) {
    && req.JoinRequest? && p.id == req.room && m.index == was && m.reply == Reply.Refused
    && (no <==> p.id in was || (cfg.multi && cfg.limit > 0 && |was| >= cfg.limit))
  }

  predicate LeaveOk(cfg: Config, c: Cid, req: Request, no: bool, was: map<string, Ptr>, m: Mem, p: Ptr, k: Then) {
    match k
    case Answer => req.LeftRequest? && p.id == req.room && m.reply == Reply.Refused && (no <==> p.id !in was)
    case Enter(q) => !no && Heads(cfg, c, req, was, m, q) && m.plan.leaving.Some? && m.plan.leaving.value == p
    case QuitRest(_) => false
  }

  predicate LeftOk(cfg: Config, c: Cid, req: Request, no: bool, was: map<string, Ptr>, m: Mem, k: Then) {
    match k
    case Answer =>
      req.LeftRequest? && m.reply == Reply.Refused && !no && req.room in was && m.index == was - {req.room}
    case Enter(q) =>
      !no && Heads(cfg, c, req, was, m, q) && m.plan.leaving.Some? && m.index == Without(was, m.plan)
    case QuitRest(_) => false
  }

  predicate RoomOk(cfg: Config, c: Cid, req: Request, no: bool, was: map<string, Ptr>, m: Mem, r: RoomPc) {
    match r
    case HasCheck(p) => CheckOk(cfg, req, no, was, m, p)
    case LeaveLock(p, k) => m.index == was && LeaveOk(cfg, c, req, no, was, m, p, k)
    case LeaveIndex(p, k) => m.index == was && !no && LeaveOk(cfg, c, req, no, was, m, p, k)
    case LeaveCast(k) => LeftOk(cfg, c, req, no, was, m, k)
    case CreateSnap(p) => !no && req.CreateRequest? && Heads(cfg, c, req, was, m, p) && m.index == was
    case CreateCast(p) => !no && req.CreateRequest? && Heads(cfg, c, req, was, m, p) && m.index == was
    case EnterLock(p) => !no && Heads(cfg, c, req, was, m, p) && m.index == Without(was, m.plan)
    case EnterIndex(p) => !no && Heads(cfg, c, req, was, m, p) && m.index == Without(was, m.plan)
    case EnterCast(p) => !no && Heads(cfg, c, req, was, m, p) && m.index == Without(was, m.plan)[p.id := p]
    case EnterList(p) => !no && Heads(cfg, c, req, was, m, p) && m.index == Without(was, m.plan)[p.id := p]
  }

  // It is answered, with nothing changed or with the rooms changed as asked.
  ghost predicate Answered(cfg: Config, c: Cid, req: Request, no: bool, was: map<string, Ptr>, m: Mem) {
    if no then m.reply == Reply.Refused && m.index == was
    else
      && m.reply == Ok && Granted(was.Keys, m.index.Keys, req, cfg.multi)
      && (req.CreateRequest? ==> m.index[req.room].public == req.public && m.index[req.room].creator == c)
  }

  // It has been looked at, and is to be refused or not.
  ghost predicate Serving(cfg: Config, c: Cid, req: Request, no: bool, was: map<string, Ptr>, t: Thread) {
    match t.pc
    case Idle => Answered(cfg, c, req, no, was, t.mem)
    case InRoom(r) => RoomOk(cfg, c, req, no, was, t.mem, r)
    case _ => false
  }

  // ---- One step ----------------------------------------------------------------------------------------------------

  // The index lists the rooms of the world that hold c.
  lemma Judged(cfg: Config, s: State, c: Cid, req: Request)
    requires Membership.Inv(cfg, s) && c in s.threads && Waits(s.threads[c].mem.index, req, s.threads[c])
    ensures var was := s.threads[c].mem.index;
            && (forall id :: id in was ==> id in s.rm.table)
            && (Refused(cfg, s, c, req) <==>
                  match req
                  case JoinRequest(id) =>
                    id !in s.rm.table || id in was || (cfg.multi && cfg.limit > 0 && |was| >= cfg.limit)
                  case LeftRequest(id) => id !in s.rm.table || id !in was
                  case CreateRequest(id, _) => id in s.rm.table)
  {
    var t := s.threads[c];
    assert Membership.Own(cfg, s.rm, c, t.mem, t.pc);
    if req.room in s.rm.table {
      var p := s.rm.table[req.room];
      assert c in s.rm.members[p] <==> Membership.Holds(t.mem, t.pc, p);
    }
  }

  lemma LookupServes(cfg: Config, s: State, c: Cid, req: Request)
    requires Membership.Inv(cfg, s) && c in s.threads && !req.CreateRequest?
    requires Waits(s.threads[c].mem.index, req, s.threads[c])
    ensures var t := s.threads[c];
            Serving(cfg, c, req, Refused(cfg, s, c, req), t.mem.index, OnLookup(t, s.rm, req.room, req.JoinRequest?))
  {
    Judged(cfg, s, c, req);
    assert req.room in s.rm.table ==> s.rm.table[req.room].id == req.room;
    hide Membership.Inv, Refused;
  }

  lemma CreateServes(cfg: Config, s: State, c: Cid, req: Request)
    requires Membership.Inv(cfg, s) && c in s.threads && req.CreateRequest?
    requires Waits(s.threads[c].mem.index, req, s.threads[c])
    ensures var t := s.threads[c];
            Serving(cfg, c, req, Refused(cfg, s, c, req), t.mem.index, OnCreate(c, t, s.rm, req.room, req.public).t)
  {
    Judged(cfg, s, c, req);
    hide Membership.Inv, Refused;
  }

  // What the index of c says about the room of a step, and the room about c.
  lemma Here(cfg: Config, c: Cid, m: Mem, rm: Rooms, r: RoomPc)
    requires Membership.RoomsOk(rm) && Membership.Own(cfg, rm, c, m, InRoom(r))
    ensures r.HasCheck? || r.LeaveLock? ==> (c in rm.members[r.room] <==> r.room.id in m.index)
    ensures r.EnterLock? ==> c !in rm.members[r.room]
    ensures forall p :: p in m.index.Values ==> p.id in m.index
  {
    if r.HasCheck? || r.LeaveLock? || r.EnterLock? {
      assert c in rm.members[r.room] <==> Membership.Holds(m, InRoom(r), r.room);
    }
    hide Membership.Within;
  }

  lemma CheckServes(cfg: Config, c: Cid, t: Thread, rm: Rooms, table: set<Cid>, r: RoomPc, pick: Ptr, req: Request,
                    no: bool, was: map<string, Ptr>)
    requires CanMove(cfg, t.mem, rm, r, pick) && t.pc == InRoom(r) && r.HasCheck?
    requires Membership.RoomsOk(rm) && Membership.Own(cfg, rm, c, t.mem, t.pc)
    requires RoomOk(cfg, c, req, no, was, t.mem, r)
    ensures Serving(cfg, c, req, no, was, OnRoom(cfg, c, t, rm, table, r, pick).t)
  {
    hide Membership.RoomsOk, Membership.Own;
    Here(cfg, c, t.mem, rm, r);
  }

  lemma LockServes(cfg: Config, c: Cid, t: Thread, rm: Rooms, table: set<Cid>, r: RoomPc, pick: Ptr, req: Request,
                   no: bool, was: map<string, Ptr>)
    requires CanMove(cfg, t.mem, rm, r, pick) && t.pc == InRoom(r) && (r.LeaveLock? || r.EnterLock?)
    requires Membership.RoomsOk(rm) && Membership.Own(cfg, rm, c, t.mem, t.pc)
    requires RoomOk(cfg, c, req, no, was, t.mem, r)
    ensures Serving(cfg, c, req, no, was, OnRoom(cfg, c, t, rm, table, r, pick).t)
  {
    hide Membership.RoomsOk, Membership.Own, Fan, TellMembers, Granted;
    Here(cfg, c, t.mem, rm, r);
  }

  lemma MoveServes(cfg: Config, c: Cid, t: Thread, rm: Rooms, table: set<Cid>, r: RoomPc, pick: Ptr, req: Request,
                   no: bool, was: map<string, Ptr>)
    requires CanMove(cfg, t.mem, rm, r, pick) && t.pc == InRoom(r)
    requires !r.HasCheck? && !r.LeaveLock? && !r.EnterLock? && !r.EnterList? && !(r.LeaveCast? && r.after.Answer?)
    requires RoomOk(cfg, c, req, no, was, t.mem, r)
    ensures Serving(cfg, c, req, no, was, OnRoom(cfg, c, t, rm, table, r, pick).t)
  {
    hide Fan, TellMembers, Granted;
  }

  lemma LeftAtLast(cfg: Config, c: Cid, t: Thread, rm: Rooms, table: set<Cid>, r: RoomPc, pick: Ptr, req: Request,
                   no: bool, was: map<string, Ptr>)
    requires CanMove(cfg, t.mem, rm, r, pick) && t.pc == InRoom(r) && r.LeaveCast? && r.after.Answer?
    requires RoomOk(cfg, c, req, no, was, t.mem, r)
    ensures Serving(cfg, c, req, no, was, OnRoom(cfg, c, t, rm, table, r, pick).t)
  {
    assert (was - {req.room}).Keys == was.Keys - {req.room};
  }

  lemma EnteredAtLast(cfg: Config, c: Cid, t: Thread, rm: Rooms, table: set<Cid>, r: RoomPc, pick: Ptr, req: Request,
                      no: bool, was: map<string, Ptr>)
    requires CanMove(cfg, t.mem, rm, r, pick) && t.pc == InRoom(r) && r.EnterList?
    requires RoomOk(cfg, c, req, no, was, t.mem, r)
    ensures Serving(cfg, c, req, no, was, OnRoom(cfg, c, t, rm, table, r, pick).t)
  {
    EnteredKeys(cfg, c, req, was, t.mem, r.room);
    hide Without, Granted, RoomsOf;
    assert Granted(was.Keys, t.mem.index.Keys, req, cfg.multi);
  }

  lemma EnteredKeys(cfg: Config, c: Cid, req: Request, was: map<string, Ptr>, m: Mem, p: Ptr)
    requires Heads(cfg, c, req, was, m, p) && m.index == Without(was, m.plan)[p.id := p]
    ensures Granted(was.Keys, m.index.Keys, req, cfg.multi) && m.index[req.room] == p
  {
    var less := Without(was, m.plan);
    assert m.index.Keys == less.Keys + {p.id};
    if m.plan.leaving.Some? {
      assert less.Keys == was.Keys - {m.plan.leaving.value.id};
      OneForOne(was.Keys, m.plan.leaving.value.id, p.id);
    }
    assert |was.Keys| == |was|;
  }

  lemma OneForOne(was: set<string>, gone: string, id: string)
    requires gone in was && id !in was
    ensures |was - {gone} + {id}| == |was|
  {
    assert |was - {gone}| == |was| - 1;
  }

  lemma RoomServes(cfg: Config, c: Cid, t: Thread, rm: Rooms, table: set<Cid>, r: RoomPc, pick: Ptr, req: Request,
                   no: bool, was: map<string, Ptr>)
    requires CanMove(cfg, t.mem, rm, r, pick) && t.pc == InRoom(r)
    requires Membership.RoomsOk(rm) && Membership.Own(cfg, rm, c, t.mem, t.pc)
    requires RoomOk(cfg, c, req, no, was, t.mem, r)
    ensures Serving(cfg, c, req, no, was, OnRoom(cfg, c, t, rm, table, r, pick).t)
  {
    hide Membership.RoomsOk, Membership.Own, RoomOk, Serving, OnRoom;
    if r.HasCheck? {
      CheckServes(cfg, c, t, rm, table, r, pick, req, no, was);
    } else if r.LeaveLock? || r.EnterLock? {
      LockServes(cfg, c, t, rm, table, r, pick, req, no, was);
    } else if r.EnterList? {
      EnteredAtLast(cfg, c, t, rm, table, r, pick, req, no, was);
    } else if r.LeaveCast? && r.after.Answer? {
      LeftAtLast(cfg, c, t, rm, table, r, pick, req, no, was);
    } else {
      MoveServes(cfg, c, t, rm, table, r, pick, req, no, was);
    }
  }

  lemma StepServes(cfg: Config, s: State, a: Action, s': State, c: Cid, req: Request, no: bool, was: map<string, Ptr>)
    requires Membership.Inv(cfg, s) && Enabled(cfg, s, a) && s' == Apply(cfg, s, a)
    requires c in s.threads && !s.threads[c].pc.Idle? && Serving(cfg, c, req, no, was, s.threads[c])
    ensures c in s'.threads && Serving(cfg, c, req, no, was, s'.threads[c])
  {
    assert c <= s.nextId;
    hide Membership.RoomsOk, Membership.Own, RoomOk, OnRoom, Answered;
    var t := s.threads[c];
    if Actor(s, a) == c && a.Move? {
      RoomServes(cfg, c, t, s.rm, s.table, t.pc.r, a.pick, req, no, was);
    } else if Actor(s, a) != c {
      hide Apply, Enabled;
      Membership.StepThreads(cfg, s, a);
    }
  }

  lemma StepWaits(cfg: Config, s: State, a: Action, s': State, c: Cid, req: Request, was: map<string, Ptr>)
    requires Membership.Inv(cfg, s) && Enabled(cfg, s, a) && s' == Apply(cfg, s, a)
    requires c in s.threads && Waits(was, req, s.threads[c])
    ensures c in s'.threads
    ensures Waits(was, req, s'.threads[c]) || Serving(cfg, c, req, Refused(cfg, s, c, req), was, s'.threads[c])
  {
    assert c <= s.nextId;
    hide Membership.Inv, Serving, OnLookup, OnCreate, Refused;
    var t := s.threads[c];
    if Actor(s, a) == c {
      if req.CreateRequest? {
        CreateServes(cfg, s, c, req);
      } else {
        LookupServes(cfg, s, c, req);
      }
    } else {
      hide Apply, Enabled;
      Membership.StepThreads(cfg, s, a);
    }
  }

  // ---- Over a run --------------------------------------------------------------------------------------------------

  // The client of c asks, at the step from run[i].
  ghost predicate Asks(cfg: Config, run: seq<State>, i: nat, c: Cid, req: Request)
    requires i + 1 < |run|
  {
    Enabled(cfg, run[i], Ask(c, req)) && run[i + 1] == Apply(cfg, run[i], Ask(c, req))
  }

  // c is at work from run[i + 1] on, at least until the last state.
  ghost predicate Busy(run: seq<State>, i: nat, c: Cid) {
    forall j :: i < j < |run| - 1 ==> c in run[j].threads && !run[j].threads[c].pc.Idle?
  }

  ghost predicate ServingFrom(cfg: Config, run: seq<State>, l: nat, c: Cid, req: Request, was: map<string, Ptr>)
    requires |run| > 0
  {
    && l < |run| - 1 && c in run[l].threads && Waits(was, req, run[l].threads[c])
    && c in run[|run| - 1].threads
    && Serving(cfg, c, req, Refused(cfg, run[l], c, req), was, run[|run| - 1].threads[c])
  }

  lemma {:induction false} Served(cfg: Config, run: seq<State>, i: nat, c: Cid, req: Request)
    requires IsRun(cfg, run) && i + 1 < |run| && Asks(cfg, run, i, c, req) && Busy(run, i, c)
    ensures var t, s := run[i].threads[c], run[|run| - 1];
            || (c in s.threads && Waits(t.mem.index, req, s.threads[c]))
            || exists l :: i < l && ServingFrom(cfg, run, l, c, req, t.mem.index)
  {
    hide Apply, Enabled, Waits, Serving, Refused, Membership.Inv;
    AskWaits(cfg, run[i], c, req);
    var n, was := |run| - 1, run[i].threads[c].mem.index;
    if i + 1 < n {
      RunPrefix(cfg, run);
      Served(cfg, run[..n], i, c, req);
      Membership.RunInv(cfg, run[..n]);
      var a :| Enabled(cfg, run[n - 1], a) && run[n] == Apply(cfg, run[n - 1], a);
      if Waits(was, req, run[n - 1].threads[c]) {
        StepWaits(cfg, run[n - 1], a, run[n], c, req, was);
        assert Waits(was, req, run[n].threads[c]) || ServingFrom(cfg, run, n - 1, c, req, was);
      } else {
        var l: nat :| i < l && ServingFrom(cfg, run[..n], l, c, req, was);
        StepServes(cfg, run[n - 1], a, run[n], c, req, Refused(cfg, run[l], c, req), was);
        assert ServingFrom(cfg, run, l, c, req, was);
      }
    }
  }

  lemma AskWaits(cfg: Config, s: State, c: Cid, req: Request)
    requires Enabled(cfg, s, Ask(c, req))
    ensures var s' := Apply(cfg, s, Ask(c, req));
            c in s.threads && c in s'.threads && Waits(s.threads[c].mem.index, req, s'.threads[c])
  {
  }

  // The answer to req and the rooms of c are what comes of handling all of req in the state l.
  ghost predicate AsIfIn(cfg: Config, l: State, s: State, c: Cid, req: Request) {
    && c in s.threads
    && var was, now := Membership.Held(l.rm, c), Membership.Held(s.rm, c);
       if Refuses(Members(l.rm), c, |was|, req, cfg.multi, cfg.limit) then
         s.threads[c].mem.reply == Reply.Refused && now == was
       else
         && s.threads[c].mem.reply == Ok && Granted(was, now, req, cfg.multi)
         && (req.CreateRequest? ==>
               && req.room in s.rm.table && s.rm.table[req.room].public == req.public
               && s.rm.table[req.room].creator == c)
  }

  lemma AnsweredAsIf(cfg: Config, l: State, s: State, c: Cid, req: Request, was: map<string, Ptr>)
    requires Membership.Inv(cfg, l) && c in l.threads && Waits(was, req, l.threads[c])
    requires Membership.Inv(cfg, s) && c in s.threads && s.threads[c].pc.Idle?
    requires Serving(cfg, c, req, Refused(cfg, l, c, req), was, s.threads[c])
    ensures AsIfIn(cfg, l, s, c, req) && Membership.Held(l.rm, c) == was.Keys
  {
    Membership.HeldIsIndex(cfg, l, c);
    Membership.HeldIsIndex(cfg, s, c);
    var m := s.threads[c].mem;
    assert Membership.Own(cfg, s.rm, c, m, Idle);
    assert |was.Keys| == |was|;
    if req.CreateRequest? && !Refused(cfg, l, c, req) {
      assert req.room in m.index;
    }
    hide Refuses, Membership.Held, Granted;
  }

  // Linearisation: in every interleaving, a request that is answered has been answered, and has changed who is where,
  // as if it had been handled all at once at some point after it was made and before its answer: with an error exactly
  // when the checks of OnRoomEvent fail there, and then nothing has changed for its client; otherwise its client's
  // rooms have changed as it asked. Up to that point its client is where it was when it asked.
  lemma RequestAnswered(cfg: Config, run: seq<State>, i: nat, c: Cid, req: Request)
    requires IsRun(cfg, run) && i + 1 < |run| && Asks(cfg, run, i, c, req) && Busy(run, i, c)
    requires var s := run[|run| - 1]; c in s.threads && s.threads[c].pc.Idle?
    ensures exists l :: i < l < |run| - 1 && AsIfIn(cfg, run[l], run[|run| - 1], c, req)
                        && Membership.Held(run[l].rm, c) == Membership.Held(run[i].rm, c)
  {
    hide Membership.Inv, Serving, Waits, Membership.Held, Refused, AsIfIn, Apply, Enabled;
    var s := run[|run| - 1];
    Membership.RunInv(cfg, run);
    AskedHeld(cfg, run, i, c, req);
    var was := run[i].threads[c].mem.index;
    Served(cfg, run, i, c, req);
    NotWaiting(was, req, s.threads[c]);
    var l: nat :| i < l && ServingFrom(cfg, run, l, c, req, was);
    PrefixInv(cfg, run, l);
    AnsweredAsIf(cfg, run[l], s, c, req, was);
  }

  lemma NotWaiting(was: map<string, Ptr>, req: Request, t: Thread)
    requires t.pc.Idle?
    ensures !Waits(was, req, t)
  {
  }

  lemma PrefixInv(cfg: Config, run: seq<State>, i: nat)
    requires IsRun(cfg, run) && i < |run|
    ensures Membership.Inv(cfg, run[i])
  {
    hide Membership.Inv;
    var pre := run[..i + 1];
    forall j | 0 < j < |pre|
      ensures Next(cfg, pre[j - 1], pre[j])
    {
      assert Next(cfg, run[j - 1], run[j]);
    }
    Membership.RunInv(cfg, pre);
  }

  lemma AskedHeld(cfg: Config, run: seq<State>, i: nat, c: Cid, req: Request)
    requires IsRun(cfg, run) && i + 1 < |run| && Asks(cfg, run, i, c, req)
    ensures c in run[i].threads && Membership.Held(run[i].rm, c) == run[i].threads[c].mem.index.Keys
  {
    hide Apply;
    PrefixInv(cfg, run, i);
    Membership.HeldIsIndex(cfg, run[i], c);
  }

  // A leave request depends on nobody else: it succeeds exactly for a room the client was in when it asked, and takes
  // it out of that room and no other.
  lemma LeaveAnswered(cfg: Config, run: seq<State>, i: nat, c: Cid, id: string)
    requires IsRun(cfg, run) && i + 1 < |run| && Asks(cfg, run, i, c, LeftRequest(id)) && Busy(run, i, c)
    requires var s := run[|run| - 1]; c in s.threads && s.threads[c].pc.Idle?
    ensures var s, was := run[|run| - 1], Membership.Held(run[i].rm, c);
            && (s.threads[c].mem.reply == Ok <==> id in was)
            && Membership.Held(s.rm, c) == was - {id}
  {
    hide Asks, Busy, IsRun;
    RequestAnswered(cfg, run, i, c, LeftRequest(id));
  }
}
