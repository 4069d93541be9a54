// Nobody is stuck and nobody goes on for ever: what a connection can wait for, and a measure of the work it has left.
module ProtocolProgress {
  import opened ConnSpec
  import opened Protocol
  import Membership = ProtocolMembership
  import Lifecycle = ProtocolLifecycle

  // A step the server makes by itself for connection c.
  predicate OwnStep(a: Action, c: Cid) {
    (a.Deliver? || a.Move?) && a.c == c
  }

  ghost predicate CanWork(cfg: Config, s: State, c: Cid) {
    exists a: Action :: OwnStep(a, c) && Enabled(cfg, s, a)
  }

  // The thread waits in ReadMessage.
  predicate Reading(t: Thread) {
    t.pc.Idle? || (t.pc == Hello(Credentials) && t.io.pending == multiset{})
  }

  // The thread reads, and takes whatever its client does next.
  ghost predicate ServesClient(cfg: Config, s: State, c: Cid)
    requires c in s.threads
  {
    if s.threads[c].pc.Idle? then
      (forall req :: Enabled(cfg, s, Ask(c, req))) && Enabled(cfg, s, Hangup(c))
    else
      (forall u :: Enabled(cfg, s, Login(c, u))) && Enabled(cfg, s, Fail(c))
  }

  // The thread waits for the write lock of the room manager, and every holder of its read lock can work.
  ghost predicate WaitsForReaders(cfg: Config, s: State, c: Cid) {
    && c in s.threads && s.threads[c].pc.Creating? && s.readers != {}
    && forall d :: d in s.readers ==> d != c && d in s.threads && CanWork(cfg, s, d)
  }

  // The next step of the thread takes the read lock.
  predicate Entering(t: Thread) {
    t.pc.Looking? || t.pc == Hello(RoomsSnap)
  }

  // The thread waits for the read lock because others wait for the write lock, and each of those can work or waits for
  // readers who can.
  ghost predicate WaitsForWriters(cfg: Config, s: State, c: Cid)
    requires c in s.threads
  {
    && Entering(s.threads[c]) && WriterPending(s)
    && forall d :: d in s.threads && s.threads[d].pc.Creating? ==> CanWork(cfg, s, d) || WaitsForReaders(cfg, s, d)
  }

  lemma AtWork(cfg: Config, s: State, c: Cid)
    requires Membership.Inv(cfg, s) && c in s.threads
    requires !s.threads[c].pc.Done? && !Reading(s.threads[c]) && (s.threads[c].pc.Creating? ==> s.readers == {})
    requires Entering(s.threads[c]) ==> !WriterPending(s)
    ensures CanWork(cfg, s, c)
  {
    hide Membership.RoomsOk, Membership.MemberOk, Membership.ThreadOk, Apply, WriterPending;
    var t := s.threads[c];
    assert Membership.Knows(s.rm, t.mem, t.pc);
    var a :=
      if Sending(t.pc) && t.io.pending != multiset{} then
        var x :| x in t.io.pending; Deliver(c, x, true)
      else if t.pc.InRoom? && t.pc.r.HasCheck? && t.mem.index != map[] then
        var id :| id in t.mem.index; Move(c, t.mem.index[id])
      else if t.pc.Bye? && t.pc.b.Quitting? && t.pc.b.todo != {} then
        var p :| p in t.pc.b.todo; Move(c, p)
      else Move(c, Ptr(0, "", false, 0));
    assert OwnStep(a, c) && Enabled(cfg, s, a);
  }

  lemma WritersWait(cfg: Config, s: State, c: Cid)
    requires Membership.Inv(cfg, s) && Lifecycle.Inv(cfg, s) && c in s.threads && s.threads[c].pc.Creating?
    ensures CanWork(cfg, s, c) || WaitsForReaders(cfg, s, c)
  {
    hide Membership.Inv, CanWork;
    if s.readers == {} {
      AtWork(cfg, s, c);
    } else {
      forall d | d in s.readers
        ensures d != c && d in s.threads && CanWork(cfg, s, d)
      {
        assert Lifecycle.Placed(cfg, s.table, s.conns, s.readers, d, s.threads[d]);
        assert Lifecycle.Placed(cfg, s.table, s.conns, s.readers, c, s.threads[c]);
        AtWork(cfg, s, d);
      }
    }
  }

  lemma SomebodyCan(cfg: Config, s: State, c: Cid)
    requires c in s.threads && (CanWork(cfg, s, c) || WaitsForReaders(cfg, s, c) || WaitsForWriters(cfg, s, c))
    ensures exists d :: d in s.threads && CanWork(cfg, s, d)
  {
    hide CanWork;
    if !CanWork(cfg, s, c) {
      if WaitsForReaders(cfg, s, c) {
        var d := Pick(s.readers);
        assert CanWork(cfg, s, d);
      } else {
        var w :| w in s.threads && s.threads[w].pc.Creating?;
        if !CanWork(cfg, s, w) {
          var d := Pick(s.readers);
          assert CanWork(cfg, s, d);
        }
      }
    }
  }

  // In every reachable state a connection that is not gone reads and serves its client, or can work, or waits for the
  // write lock while everybody who keeps it from it can work, or waits for the read lock while everybody who is ahead
  // of it with the write lock can work or waits like that. So as long as somebody has work to do, somebody can work.
  lemma Progress(cfg: Config, s: State, c: Cid)
    requires Reachable(cfg, s) && c in s.threads && !s.threads[c].pc.Done?
    ensures if Reading(s.threads[c]) then ServesClient(cfg, s, c)
            else CanWork(cfg, s, c) || WaitsForReaders(cfg, s, c) || WaitsForWriters(cfg, s, c)
    ensures !Reading(s.threads[c]) ==> exists d :: d in s.threads && CanWork(cfg, s, d)
  {
    Membership.ReachableInv(cfg, s);
    Lifecycle.ReachableInv(cfg, s);
    hide Membership.Inv, Lifecycle.Inv, Apply, Reachable, CanWork;
    if !Reading(s.threads[c]) {
      if s.threads[c].pc.Creating? {
        WritersWait(cfg, s, c);
      } else if Entering(s.threads[c]) && WriterPending(s) {
        forall d | d in s.threads && s.threads[d].pc.Creating?
          ensures CanWork(cfg, s, d) || WaitsForReaders(cfg, s, d)
        {
          WritersWait(cfg, s, d);
        }
      } else {
        AtWork(cfg, s, c);
      }
      SomebodyCan(cfg, s, c);
    }
  }

  // ---- A measure ---------------------------------------------------------------------------------------------------

  // The number of phases ahead of a thread before it reads again or is gone, at most.
  function Phase(t: Thread): nat {
    match t.pc
    case Hello(h) => HelloPhase(h)
    case Idle => 1
    case Looking(_, _) => 10
    case Creating(_, _) => 8
    case InRoom(r) => RoomPhase(r)
    case Bye(b) => ByePhase(b, t.mem)
    case Done => 0
  }

  function HelloPhase(h: HelloPc): nat {
    match h
    case Credentials => 14
    case AuthSnap(_) => 13
    case AuthList(_) => 12
    case AuthCastSnap => 11
    case AuthCast => 10
    case Passing => 9
    case Connecting => 8
    case JoinSnap => 7
    case JoinList => 6
    case JoinCastSnap => 5
    case JoinCast => 4
    case RoomsSnap => 3
    case RoomsList => 2
  }

  function RoomPhase(r: RoomPc): nat {
    match r
    case HasCheck(_) => 9
    case LeaveLock(_, k) => ThenPhase(k) + 3
    case LeaveIndex(_, k) => ThenPhase(k) + 2
    case LeaveCast(k) => ThenPhase(k) + 1
    case CreateSnap(_) => 7
    case CreateCast(_) => 6
    case EnterLock(_) => 5
    case EnterIndex(_) => 4
    case EnterCast(_) => 3
    case EnterList(_) => 2
  }

  function ThenPhase(k: Then): nat {
    match k
    case Answer => 1
    case Enter(_) => 5
    case QuitRest(todo) => 7 + 4 * |todo|
  }

  function ByePhase(b: ByePc, m: Mem): nat {
    match b
    case QuitSnap => 8 + 4 * |m.index.Values|
    case Quitting(todo) => 7 + 4 * |todo|
    case LeftSnap => 6
    case LeftCast => 5
    case Removing => 4
    case Revoking => 3
    case RevokeSnap => 2
    case RevokeCast => 1
  }

  // Less work is left: a later phase, or the same with fewer sends pending.
  predicate Less(t: Thread, t': Thread) {
    Phase(t') < Phase(t) || (Phase(t') == Phase(t) && t'.pc == t.pc && |t'.io.pending| < |t.io.pending|)
  }

  // Every step a connection's thread makes by itself leaves it less work, and the steps of others change nothing about
  // its work. So it makes finitely many steps in a row before it reads again or is gone.
  lemma OwnStepsEnd(cfg: Config, s: State, a: Action, c: Cid)
    requires Enabled(cfg, s, a) && c in s.threads
    ensures var s' := Apply(cfg, s, a);
            && c in s'.threads
            && (OwnStep(a, c) ==> Less(s.threads[c], s'.threads[c]))
            && (Actor(s, a) != c ==> s'.threads[c] == s.threads[c])
  {
    hide Enabled, Apply, Less;
    Membership.StepThreads(cfg, s, a);
    if OwnStep(a, c) {
      if a.Deliver? {
        DeliverLess(cfg, s, a);
      } else {
        MoveLess(cfg, s, a);
        LaterPhase(s.threads[c], Apply(cfg, s, a).threads[c]);
      }
    }
  }

  lemma LaterPhase(t: Thread, t': Thread)
    requires Phase(t') < Phase(t)
    ensures Less(t, t')
  {
  }

  lemma DeliverLess(cfg: Config, s: State, a: Action)
    requires Enabled(cfg, s, a) && a.Deliver?
    ensures Less(s.threads[a.c], Apply(cfg, s, a).threads[a.c])
  {
    var t := s.threads[a.c];
    assert |t.io.pending - multiset{a.x}| < |t.io.pending|;
  }

  lemma MoveLess(cfg: Config, s: State, a: Action)
    requires Enabled(cfg, s, a) && a.Move?
    ensures Phase(Apply(cfg, s, a).threads[a.c]) < Phase(s.threads[a.c])
  {
    hide OnHello, OnBye, OnLookup, OnCreate, OnRoom, WriterPending;
    var t := s.threads[a.c];
    match t.pc {
      case Hello(h) => HelloLess(s, a.c, h);
      case Looking(id, join) => LookupLess(t, s.rm, id, join);
      case Creating(id, public) => CreateLess(a.c, t, s.rm, id, public);
      case InRoom(r) => RoomLess(cfg, a.c, t, s.rm, s.table, r, a.pick);
      case Bye(b) => ByeLess(cfg, s, a.c, b, a.pick);
      case _ =>
    }
  }

  lemma HelloLess(s: State, c: Cid, h: HelloPc)
    requires c in s.threads && s.threads[c].pc == Hello(h) && !h.Credentials?
    ensures c in OnHello(s, c, h).threads && Phase(OnHello(s, c, h).threads[c]) < Phase(s.threads[c])
  {
    hide Fan, TellUsers, TellClients, TellRooms, Others, OtherClients;
  }

  lemma LookupLess(t: Thread, rm: Rooms, id: string, join: bool)
    requires t.pc == Looking(id, join)
    ensures Phase(OnLookup(t, rm, id, join)) < Phase(t)
  {
  }

  lemma CreateLess(c: Cid, t: Thread, rm: Rooms, id: string, public: bool)
    requires t.pc == Creating(id, public)
    ensures Phase(OnCreate(c, t, rm, id, public).t) < Phase(t)
  {
  }

  lemma RoomLess(cfg: Config, c: Cid, t: Thread, rm: Rooms, table: set<Cid>, r: RoomPc, pick: Ptr)
    requires CanMove(cfg, t.mem, rm, r, pick) && t.pc == InRoom(r)
    ensures Phase(OnRoom(cfg, c, t, rm, table, r, pick).t) < Phase(t)
  {
    hide Fan, TellMembers;
  }

  lemma ByeLess(cfg: Config, s: State, c: Cid, b: ByePc, pick: Ptr)
    requires c in s.threads && s.threads[c].pc == Bye(b) && (b.Quitting? && b.todo != {} ==> pick in b.todo)
    ensures c in OnBye(cfg, s, c, b, pick).threads && Phase(OnBye(cfg, s, c, b, pick).threads[c]) < Phase(s.threads[c])
  {
    hide Fan, RemoveAuth, AnyLeft, OtherClients;
  }

  // A schedule from a state, and where it leads.
  ghost predicate Legal(cfg: Config, s: State, acts: seq<Action>)
    decreases |acts|
  {
    acts == [] || (Enabled(cfg, s, acts[0]) && Legal(cfg, Apply(cfg, s, acts[0]), acts[1..]))
  }

  ghost function Play(cfg: Config, s: State, acts: seq<Action>): State
    requires Legal(cfg, s, acts)
    decreases |acts|
  {
    if acts == [] then s else Play(cfg, Apply(cfg, s, acts[0]), acts[1..])
  }

  ghost function Moves(acts: seq<Action>, c: Cid): nat {
    if acts == [] then 0 else Moves(acts[1..], c) + if acts[0].Move? && acts[0].c == c then 1 else 0
  }

  // Whatever the schedule, between two messages of its client a thread makes no more moves than the phases it goes
  // through; in particular a room request is over after at most ten, sends aside.
  lemma {:induction false} MovesBounded(cfg: Config, s: State, acts: seq<Action>, c: Cid)
    requires Legal(cfg, s, acts) && c in s.threads && c <= s.nextId
    requires forall a :: a in acts && !a.Accept? && a.c == c ==> OwnStep(a, c)
    ensures c in Play(cfg, s, acts).threads
    ensures Moves(acts, c) + Phase(Play(cfg, s, acts).threads[c]) <= Phase(s.threads[c])
    ensures s.threads[c].pc.Creating? || s.threads[c].pc.Looking? ==> Moves(acts, c) <= 10
    decreases |acts|
  {
    if acts != [] {
      hide Enabled, Apply, Phase;
      var a, rest := acts[0], acts[1..];
      var s' := Apply(cfg, s, a);
      Membership.StepThreads(cfg, s, a);
      if Actor(s, a) == c {
        assert OwnStep(a, c);
        if a.Move? {
          MoveLess(cfg, s, a);
        } else {
          DeliverLess(cfg, s, a);
          NotMore(s.threads[c], s'.threads[c]);
        }
      }
      assert forall x :: x in rest ==> x in acts;
      MovesBounded(cfg, s', rest, c);
    }
  }

  lemma NotMore(t: Thread, t': Thread)
    requires Less(t, t')
    ensures Phase(t') <= Phase(t)
  {
  }
}
