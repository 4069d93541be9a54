// Runs that attain the bound on the rooms a client can be in: a client that joined as many rooms as it may still adds
// one with every create.
module ProtocolWitness {
  import opened ConnSpec
  import opened Protocol
  import opened RoomSpec
  import Membership = ProtocolMembership

  const ANY := Ptr(0, "", false, 0)

  // Everybody reads.
  ghost predicate Calm(s: State) {
    && s.readers == {}
    && forall c :: c in s.threads ==> c <= s.nextId && s.threads[c].pc.Idle? && s.threads[c].io == NO_IO
  }

  // s' differs from s in the thread c only.
  ghost predicate Only(s: State, s': State, c: Cid) {
    && c in s.threads && c in s'.threads && s'.threads == s.threads[c := s'.threads[c]]
    && s'.table == s.table && s'.readers == s.readers && s'.nextId == s.nextId && s'.rm == s.rm
  }

  // A thread's pending sends all succeed.
  lemma {:induction false} Drain(cfg: Config, s: State, c: Cid) returns (s': State)
    requires Reachable(cfg, s) && c in s.threads && Sending(s.threads[c].pc)
    ensures Reachable(cfg, s') && Only(s, s', c)
    ensures s'.threads[c] == s.threads[c].(io := Io(multiset{}, s.threads[c].io.later))
    ensures s'.conns == s.conns && s'.sent == s.sent + s.threads[c].io.pending
    decreases |s.threads[c].io.pending|
  {
    hide Reachable;
    var t := s.threads[c];
    if t.io.pending == multiset{} {
      s' := s;
    } else {
      var x :| x in t.io.pending;
      var a := Deliver(c, x, true);
      ReachNext(cfg, s, a);
      s' := Apply(cfg, s, a);
      assert |t.io.pending - multiset{x}| < |t.io.pending|;
      s' := Drain(cfg, s', c);
    }
  }

  lemma Step(cfg: Config, s: State, c: Cid) returns (s': State)
    requires Reachable(cfg, s) && Enabled(cfg, s, Move(c, ANY))
    ensures Reachable(cfg, s') && s' == Apply(cfg, s, Move(c, ANY))
  {
    ReachNext(cfg, s, Move(c, ANY));
    s' := Apply(cfg, s, Move(c, ANY));
  }

  // The same on the way to the read loop.
  lemma HelloStep(cfg: Config, s: State, c: Cid) returns (s': State)
    requires Reachable(cfg, s) && c in s.threads && s.threads[c].pc.Hello? && !s.threads[c].pc.h.Credentials?
    requires Sending(s.threads[c].pc) ==> s.threads[c].io.pending == multiset{}
    requires s.threads[c].pc.h.RoomsSnap? ==> !WriterPending(s)
    ensures Reachable(cfg, s') && s' == OnHello(s, c, s.threads[c].pc.h)
  {
    hide Reachable, OnHello;
    s' := Step(cfg, s, c);
  }

  // Room.Join of a client that is not in the room, with sends that succeed.
  lemma Entering(cfg: Config, s: State, c: Cid, p: Ptr) returns (s': State)
    requires Reachable(cfg, s) && c in s.threads && p in s.rm.members && c !in s.rm.members[p]
    requires s.threads[c].pc == InRoom(EnterLock(p)) && s.threads[c].io == NO_IO
    ensures Reachable(cfg, s') && Only(s, s'.(rm := s.rm), c)
    ensures s'.rm == s.rm.(members := s.rm.members[p := s.rm.members[p] + {c}])
    ensures var t, t' := s.threads[c], s'.threads[c];
            && t'.pc.Idle? && t'.io == NO_IO
            && t'.mem == t.mem.(index := t.mem.index[p.id := p], reply := Ok)
  {
    hide Reachable, Fan, TellMembers;
    s' := Step(cfg, s, c);
    s' := Step(cfg, s', c);
    s' := Telling(cfg, s', c, p);
  }

  // The sends of Room.Join.
  lemma Telling(cfg: Config, s: State, c: Cid, p: Ptr) returns (s': State)
    requires Reachable(cfg, s) && c in s.threads && s.threads[c].pc == InRoom(EnterCast(p))
    ensures Reachable(cfg, s') && Only(s, s', c)
    ensures s'.threads[c] == s.threads[c].(pc := Idle, io := NO_IO, mem := s.threads[c].mem.(reply := Ok))
  {
    hide Reachable;
    s' := Drain(cfg, s, c);
    s' := Step(cfg, s', c);
    s' := Drain(cfg, s', c);
    s' := Step(cfg, s', c);
  }

  // A client creates a private room with a new id.
  lemma Create(cfg: Config, s: State, c: Cid, id: string) returns (s': State)
    requires Reachable(cfg, s) && Calm(s) && c in s.threads && id !in s.rm.table
    ensures Reachable(cfg, s') && Calm(s') && Only(s, s'.(rm := s.rm), c)
    ensures s'.rm.table.Keys == s.rm.table.Keys + {id}
    ensures s'.threads[c].mem.creates == s.threads[c].mem.creates + 1
    ensures s'.threads[c].mem.index.Keys == s.threads[c].mem.index.Keys + {id}
    ensures forall d :: d in s.threads && d != c ==> s'.threads[d] == s.threads[d]
  {
    hide Reachable, Fan, TellMembers;
    var p := Ptr(s.rm.nextSerial, id, false, c);
    s' := Registering(cfg, s, c, id);
    s' := Entering(cfg, s', c, p);
  }

  // The part of a create request before its Join.
  lemma Registering(cfg: Config, s: State, c: Cid, id: string) returns (s': State)
    requires Reachable(cfg, s) && s.readers == {} && c in s.threads && id !in s.rm.table
    requires s.threads[c].pc.Idle? && s.threads[c].io == NO_IO
    ensures Reachable(cfg, s') && Only(s, s'.(rm := s.rm), c)
    ensures var p, t, t' := Ptr(s.rm.nextSerial, id, false, c), s.threads[c], s'.threads[c];
            && s'.rm == Rooms(s.rm.table[id := p], s.rm.members[p := {}], s.rm.nextSerial + 1)
            && t'.pc == InRoom(EnterLock(p)) && t'.io == NO_IO
            && t'.mem.index == t.mem.index && t'.mem.creates == t.mem.creates + 1
  {
    hide Reachable;
    var a := Ask(c, CreateRequest(id, false));
    ReachNext(cfg, s, a);
    s' := Apply(cfg, s, a);
    s' := Step(cfg, s', c);
    s' := Drain(cfg, s', c);
    s' := Step(cfg, s', c);
  }

  // A client joins a room without having to leave one.
  lemma Joining(cfg: Config, s: State, c: Cid, id: string) returns (s': State)
    requires Reachable(cfg, s) && Calm(s) && c in s.threads && id in s.rm.table && id !in s.threads[c].mem.index
    requires if cfg.multi then cfg.limit <= 0 || |s.threads[c].mem.index| < cfg.limit
             else s.threads[c].mem.index == map[]
    ensures Reachable(cfg, s') && Calm(s') && Only(s, s'.(rm := s.rm), c)
    ensures s'.rm.table == s.rm.table && s'.threads[c].mem.creates == s.threads[c].mem.creates
    ensures s'.threads[c].mem.index.Keys == s.threads[c].mem.index.Keys + {id}
  {
    hide Reachable;
    var p := NotIn(cfg, s, c, id);
    s' := Checked(cfg, s, c, id);
    s' := Entering(cfg, s', c, p);
  }

  lemma NotIn(cfg: Config, s: State, c: Cid, id: string) returns (p: Ptr)
    requires Reachable(cfg, s) && c in s.threads && s.threads[c].pc.Idle?
    requires id in s.rm.table && id !in s.threads[c].mem.index
    ensures p == s.rm.table[id] && p.id == id && p in s.rm.members && c !in s.rm.members[p]
  {
    Membership.ReachableInv(cfg, s);
    p := s.rm.table[id];
  }

  // The part of a join request before its Join.
  lemma Checked(cfg: Config, s: State, c: Cid, id: string) returns (s': State)
    requires Reachable(cfg, s) && Calm(s) && c in s.threads && id in s.rm.table
    requires s.rm.table[id] in s.rm.members && c !in s.rm.members[s.rm.table[id]]
    requires if cfg.multi then cfg.limit <= 0 || |s.threads[c].mem.index| < cfg.limit
             else s.threads[c].mem.index == map[]
    ensures Reachable(cfg, s') && Only(s, s', c)
    ensures var t, t' := s.threads[c], s'.threads[c];
            && t'.pc == InRoom(EnterLock(s.rm.table[id])) && t'.io == t.io
            && t'.mem.index == t.mem.index && t'.mem.creates == t.mem.creates
  {
    hide Reachable;
    var a := Ask(c, JoinRequest(id));
    ReachNext(cfg, s, a);
    s' := Apply(cfg, s, a);
    s' := Step(cfg, s', c);
    s' := Step(cfg, s', c);
  }

  // A connection comes in, authenticates if it has to, and is served up to its first read.
  lemma ComingIn(cfg: Config, s: State) returns (s': State)
    requires Reachable(cfg, s) && Calm(s)
    ensures Reachable(cfg, s') && Calm(s') && s'.rm == s.rm
    ensures var c := s.nextId + 1;
            && s'.nextId == c && c in s'.threads && s'.threads == s.threads[c := s'.threads[c]]
            && s'.threads[c].mem == Mem(map[], NoReply, NoPlan, 0)
  {
    hide Reachable, Fan, TellClients, TellRooms;
    var c := s.nextId + 1;
    ReachNext(cfg, s, Accept);
    s' := Apply(cfg, s, Accept);
    if cfg.auth {
      s' := Authenticating(cfg, s', c);
    }
    s' := Step(cfg, s', c);
    s' := Arriving(cfg, s', c);
    s' := Listing(cfg, s', c);
  }

  // CheckAuth, as some user, with sends that succeed.
  lemma Authenticating(cfg: Config, s: State, c: Cid) returns (s': State)
    requires Reachable(cfg, s) && c in s.threads && s.threads[c].pc == Hello(Credentials) && !s.threads[c].failed.cast
    ensures Reachable(cfg, s') && Only(s, s', c)
    ensures s'.threads[c].pc == Hello(Connecting) && s'.threads[c].mem == s.threads[c].mem
  {
    hide Reachable, Apply, Enabled, TellUsers, Others;
    s' := Drain(cfg, s, c);
    s' := LoggingIn(cfg, s', c);
    s' := HelloStep(cfg, s', c);
    s' := Drain(cfg, s', c);
    s' := HelloStep(cfg, s', c);
    s' := Admitting(cfg, s', c);
  }

  lemma LoggingIn(cfg: Config, s: State, c: Cid) returns (s': State)
    requires Reachable(cfg, s) && c in s.threads && s.threads[c].pc == Hello(Credentials)
    requires s.threads[c].io.pending == multiset{}
    ensures Reachable(cfg, s') && Only(s, s', c)
    ensures s'.threads[c].pc.Hello? && s'.threads[c].pc.h.AuthSnap? && s'.threads[c].mem == s.threads[c].mem
    ensures s'.threads[c].failed == s.threads[c].failed
  {
    hide Reachable, First, SetAuth;
    ReachNext(cfg, s, Login(c, ""));
    s' := Apply(cfg, s, Login(c, ""));
  }

  // The announcement, if there is one, and the AuthPass message.
  lemma Admitting(cfg: Config, s: State, c: Cid) returns (s': State)
    requires Reachable(cfg, s) && c in s.threads && !s.threads[c].failed.cast
    requires s.threads[c].pc == Hello(AuthCastSnap) || s.threads[c].pc == Hello(Passing)
    ensures Reachable(cfg, s') && Only(s, s', c)
    ensures s'.threads[c].pc == Hello(Connecting) && s'.threads[c].mem == s.threads[c].mem
  {
    hide Reachable;
    s' := s;
    if s.threads[c].pc == Hello(AuthCastSnap) {
      s' := Announcing(cfg, s, c);
    }
    s' := Drain(cfg, s', c);
    s' := Step(cfg, s', c);
  }

  lemma Announcing(cfg: Config, s: State, c: Cid) returns (s': State)
    requires Reachable(cfg, s) && c in s.threads && !s.threads[c].failed.cast
    requires s.threads[c].pc == Hello(AuthCastSnap)
    ensures Reachable(cfg, s') && Only(s, s', c)
    ensures s'.threads[c].pc == Hello(Passing) && s'.threads[c].mem == s.threads[c].mem
  {
    hide Reachable, Apply, Enabled, Fan, OtherClients;
    s' := HelloStep(cfg, s, c);
    s' := Drain(cfg, s', c);
    s' := HelloStep(cfg, s', c);
  }

  lemma Arriving(cfg: Config, s: State, c: Cid) returns (s': State)
    requires Reachable(cfg, s) && c in s.threads && s.threads[c].pc == Hello(JoinSnap)
    ensures Reachable(cfg, s') && Only(s, s', c)
    ensures s'.threads[c].pc == Hello(RoomsSnap) && s'.threads[c].mem == s.threads[c].mem
  {
    hide Reachable;
    s' := Stage(cfg, s, c);
    s' := Stage(cfg, s', c);
  }

  // A list or a broadcast of onJoin.
  lemma Stage(cfg: Config, s: State, c: Cid) returns (s': State)
    requires Reachable(cfg, s) && c in s.threads
    requires s.threads[c].pc == Hello(JoinSnap) || s.threads[c].pc == Hello(JoinCastSnap)
    ensures Reachable(cfg, s') && Only(s, s', c)
    ensures s'.threads[c].pc == if s.threads[c].pc == Hello(JoinSnap) then Hello(JoinCastSnap) else Hello(RoomsSnap)
    ensures s'.threads[c].mem == s.threads[c].mem
  {
    hide Reachable, Apply, Enabled, Fan, TellClients;
    s' := HelloStep(cfg, s, c);
    s' := Drain(cfg, s', c);
    s' := HelloStep(cfg, s', c);
  }

  lemma Listing(cfg: Config, s: State, c: Cid) returns (s': State)
    requires Reachable(cfg, s) && c in s.threads && s.threads[c].pc == Hello(RoomsSnap) && s.readers == {}
    requires !WriterPending(s)
    ensures Reachable(cfg, s') && Only(s, s', c)
    ensures s'.threads[c].pc.Idle? && s'.threads[c].io == NO_IO && s'.threads[c].mem == s.threads[c].mem
  {
    hide Reachable, Apply, Enabled, TellRooms;
    s' := HelloStep(cfg, s, c);
    s' := Drain(cfg, s', c);
    s' := HelloStep(cfg, s', c);
  }

  // ---- Any number of rooms -----------------------------------------------------------------------------------------

  lemma {:induction false} Above(ids: set<string>) returns (n: nat)
    ensures forall id :: id in ids ==> |id| < n
  {
    if ids == {} {
      n := 0;
    } else {
      var id :| id in ids;
      n := Above(ids - {id});
      n := if |id| < n then n else |id| + 1;
    }
  }

  lemma NewId(ids: set<string>) returns (id: string)
    ensures id !in ids
  {
    var n := Above(ids);
    id := seq(n, _ => 'r');
  }

  // c creates n rooms.
  lemma {:induction false} CreatingAll(cfg: Config, s: State, c: Cid, n: nat) returns (s': State)
    requires Reachable(cfg, s) && Calm(s) && c in s.threads
    ensures Reachable(cfg, s') && Calm(s') && Only(s, s'.(rm := s.rm), c)
    ensures |s'.rm.table| == |s.rm.table| + n
    ensures s'.threads[c].mem.creates == s.threads[c].mem.creates + n
    ensures |s'.threads[c].mem.index| == |s.threads[c].mem.index| + n
    decreases n
  {
    hide Reachable;
    s' := s;
    if n > 0 {
      hide Calm;
      s' := CreatingOne(cfg, s, c);
      s' := CreatingAll(cfg, s', c, n - 1);
    }
  }

  lemma CreatingOne(cfg: Config, s: State, c: Cid) returns (s': State)
    requires Reachable(cfg, s) && Calm(s) && c in s.threads
    ensures Reachable(cfg, s') && Calm(s') && Only(s, s'.(rm := s.rm), c)
    ensures |s'.rm.table| == |s.rm.table| + 1
    ensures s'.threads[c].mem.creates == s.threads[c].mem.creates + 1
    ensures |s'.threads[c].mem.index| == |s.threads[c].mem.index| + 1
  {
    hide Reachable, Calm;
    IndexedExist(cfg, s, c);
    var id := NewId(s.rm.table.Keys);
    s' := Create(cfg, s, c, id);
    hide Only;
    assert |s'.rm.table.Keys| == |s.rm.table.Keys| + 1;
    assert |s'.threads[c].mem.index.Keys| == |s.threads[c].mem.index.Keys| + 1;
  }

  lemma IndexedExist(cfg: Config, s: State, c: Cid)
    requires Reachable(cfg, s) && c in s.threads
    ensures s.threads[c].mem.index.Keys <= s.rm.table.Keys
  {
    Membership.ReachableInv(cfg, s);
    assert Membership.Knows(s.rm, s.threads[c].mem, s.threads[c].pc);
  }

  // c joins n more rooms, as far as the limit allows.
  lemma {:induction false} JoiningAll(cfg: Config, s: State, c: Cid, n: nat) returns (s': State)
    requires Reachable(cfg, s) && Calm(s) && c in s.threads
    requires |s.threads[c].mem.index| + n <= |s.rm.table|
    requires |s.threads[c].mem.index| + n <= if cfg.multi then cfg.limit else 1
    ensures Reachable(cfg, s') && Calm(s') && Only(s, s'.(rm := s.rm), c)
    ensures s'.threads[c].mem.creates == s.threads[c].mem.creates
    ensures |s'.threads[c].mem.index| == |s.threads[c].mem.index| + n
    decreases n
  {
    hide Reachable;
    s' := s;
    if n > 0 {
      IndexedExist(cfg, s, c);
      var all, mine := s.rm.table.Keys, s.threads[c].mem.index.Keys;
      var id := Another(all, mine);
      s' := Joining(cfg, s, c, id);
      assert |s'.threads[c].mem.index.Keys| == |mine| + 1;
      s' := JoiningAll(cfg, s', c, n - 1);
    }
  }

  lemma Another(all: set<string>, mine: set<string>) returns (id: string)
    requires mine <= all && |mine| < |all|
    ensures id in all && id !in mine
  {
    assert all == mine + (all - mine);
    id :| id in all - mine;
  }

  // The bound of RoomCountBound is attained for any number of creates, in single mode and in multi mode with a limit;
  // with one create it is two rooms in single mode.
  lemma BoundAttained(cfg: Config, n: nat)
    requires cfg.multi ==> cfg.limit > 0
    ensures exists s: State, c: Cid ::
              && Reachable(cfg, s) && c in s.threads && s.threads[c].mem.creates == n
              && |Membership.Held(s.rm, c)| == (if cfg.multi then cfg.limit else 1) + n
  {
    hide Reachable;
    var k := if cfg.multi then cfg.limit else 1;
    ReachInit(cfg);
    var s := ComingIn(cfg, Init());
    s := ComingIn(cfg, s);
    s := CreatingAll(cfg, s, 1, k);
    s := JoiningAll(cfg, s, 2, k);
    s := CreatingAll(cfg, s, 2, n);
    Membership.ReachableInv(cfg, s);
    Membership.HeldIsIndex(cfg, s, 2);
    assert |s.threads[2].mem.index.Keys| == |s.threads[2].mem.index|;
  }
}
