// Presence of connections, in every interleaving: who exactly is told that a connection has come, and that it has
// gone.
module ProtocolArrivals {
  import opened ConnSpec
  import opened Protocol
  import Membership = ProtocolMembership
  import Lifecycle = ProtocolLifecycle
  import Leak = ProtocolLeak
  import Notices = ProtocolNotices
  import Telling = ProtocolTelling
  import Witness = ProtocolWitness

  // ---- How far a connection has come -------------------------------------------------------------------------------

  // Before AddClient, the steps of onJoin, at work, the steps of onLeft, after RemoveClient.
  function Level(pc: Pc): nat {
    match pc
    case Hello(h) =>
      if h.JoinSnap? then 1
      else if h.JoinList? then 2
      else if h.JoinCastSnap? then 3
      else if h.JoinCast? || h.RoomsSnap? || h.RoomsList? then 4
      else 0
    case Bye(b) =>
      if b.QuitSnap? || b.Quitting? then 4
      else if b.LeftSnap? then 5
      else if b.LeftCast? then 6
      else if b.Removing? then 7
      else 8
    case Done => 8
    case _ => 4
  }

  lemma HelloLevel(s: State, c: Cid, h: HelloPc)
    requires c in s.threads && s.threads[c].pc == Hello(h)
    ensures c in OnHello(s, c, h).threads && Level(OnHello(s, c, h).threads[c].pc) >= Level(Hello(h))
  {
    hide Fan, TellUsers, TellClients, TellRooms, Others, OtherClients;
  }

  lemma RoomLevel(cfg: Config, c: Cid, t: Thread, rm: Rooms, table: set<Cid>, r: RoomPc, pick: Ptr)
    requires CanMove(cfg, t.mem, rm, r, pick)
    ensures Level(OnRoom(cfg, c, t, rm, table, r, pick).t.pc) == 4
  {
    hide Fan, TellMembers;
  }

  lemma ByeLevel(cfg: Config, s: State, c: Cid, b: ByePc, pick: Ptr)
    requires c in s.threads && s.threads[c].pc == Bye(b)
    ensures c in OnBye(cfg, s, c, b, pick).threads && Level(OnBye(cfg, s, c, b, pick).threads[c].pc) >= Level(Bye(b))
  {
    hide Fan, RemoveAuth, AnyLeft, OtherClients;
  }

  lemma OwnLevel(cfg: Config, s: State, a: Action)
    requires Enabled(cfg, s, a) && !a.Accept?
    ensures a.c in s.threads && a.c in Apply(cfg, s, a).threads
    ensures Level(Apply(cfg, s, a).threads[a.c].pc) >= Level(s.threads[a.c].pc)
  {
    hide OnHello, OnRoom, OnBye, OnLookup, OnCreate, WriterPending;
    if a.Move? {
      match s.threads[a.c].pc {
        case Hello(h) => HelloLevel(s, a.c, h);
        case Looking(id, join) => LookupLevel(s.threads[a.c], s.rm, id, join);
        case Creating(id, public) => CreateLevel(a.c, s.threads[a.c], s.rm, id, public);
        case InRoom(r) => RoomLevel(cfg, a.c, s.threads[a.c], s.rm, s.table, r, a.pick);
        case Bye(b) => ByeLevel(cfg, s, a.c, b, a.pick);
        case _ =>
      }
    }
  }

  lemma LookupLevel(t: Thread, rm: Rooms, id: string, join: bool)
    ensures Level(OnLookup(t, rm, id, join).pc) == 4
  {
  }

  lemma CreateLevel(c: Cid, t: Thread, rm: Rooms, id: string, public: bool)
    ensures Level(OnCreate(c, t, rm, id, public).t.pc) == 4
  {
  }

  // ---- What a thread can be about to say about comings and goings --------------------------------------------------

  predicate MaySay(t: Thread, e: Cid, x: Send) {
    && t.io.pending[x] == 1
    && (|| (t.pc == Hello(JoinList) && x.ev.UserJoin? && x.to == e && x.ev.who != e)
        || (t.pc == Hello(JoinCast) && x.ev == UserJoin(e) && x.to != e)
        || (t.pc == Bye(LeftCast) && x.ev == UserLeft(e) && x.to != e))
  }

  predicate Coming(ev: Event) {
    ev.UserJoin? || ev.UserLeft?
  }

  predicate Says(t: Thread, e: Cid) {
    && (forall x :: x in t.io.pending && Coming(x.ev) ==> MaySay(t, e, x))
    && (forall x :: x in t.io.later ==> !Coming(x.ev))
  }

  ghost predicate AllSay(s: State) {
    forall e :: e in s.threads ==> e <= s.nextId && Says(s.threads[e], e)
  }

  // What a move adds to what its thread has to say.
  predicate Offers(s: State, a: Action, x: Send)
    requires a.Move? && a.c in s.threads
  {
    match s.threads[a.c].pc
    case Hello(h) =>
      || (h.JoinSnap? && x.ev.UserJoin? && x.to == a.c && x.ev.who != a.c && x.ev.who in s.table)
      || (h.JoinCastSnap? && x.ev == UserJoin(a.c) && x.to != a.c && x.to in s.table)
    case Bye(b) => b.LeftSnap? && x.ev == UserLeft(a.c) && x.to != a.c && x.to in s.table
    case _ => false
  }

  predicate Stopped(t: Thread, a: Action) {
    a.Deliver? && !a.ok && t.pc == Hello(JoinList)
  }

  lemma NothingToSay(t: Thread, e: Cid, x: Send)
    requires Says(t, e) && Coming(x.ev) && t.pc != Hello(JoinList) && t.pc != Hello(JoinCast) && t.pc != Bye(LeftCast)
    ensures t.io.pending[x] == 0
  {
    assert x in t.io.pending ==> MaySay(t, e, x);
  }

  predicate Grown(s: State, c: Cid, t': Thread, x: Send, pick: Ptr)
    requires c in s.threads
  {
    Coming(x.ev) ==>
      t'.io.pending[x] == s.threads[c].io.pending[x] + if Offers(s, Move(c, pick), x) then 1 else 0
  }

  // No word of comings and goings.
  lemma Silent(t: Thread, e: Cid)
    requires forall x :: x in t.io.pending || x in t.io.later ==> !Coming(x.ev)
    ensures Says(t, e)
  {
  }

  lemma ListSays(s: State, c: Cid)
    requires c in s.threads && s.threads[c].pc == Hello(JoinSnap)
    ensures Says(OnHello(s, c, JoinSnap).threads[c], c)
  {
    hide TellClients;
  }

  lemma CastSays(s: State, c: Cid)
    requires c in s.threads && s.threads[c].pc == Hello(JoinCastSnap)
    ensures Says(OnHello(s, c, JoinCastSnap).threads[c], c)
  {
    hide Fan;
  }

  lemma HelloQueues(s: State, c: Cid, h: HelloPc, x: Send)
    requires c in s.threads && s.threads[c].pc == Hello(h) && !h.JoinSnap? && !h.JoinCastSnap? && Coming(x.ev)
    ensures var t, t' := s.threads[c], OnHello(s, c, h).threads[c];
            x in t'.io.pending || x in t'.io.later ==> x in t.io.pending || x in t.io.later
  {
    hide Fan, TellUsers, TellClients, TellRooms, Others, OtherClients;
  }

  lemma HelloSays(s: State, c: Cid, h: HelloPc)
    requires c in s.threads && s.threads[c].pc == Hello(h) && !h.Credentials? && Says(s.threads[c], c)
    requires Sending(s.threads[c].pc) ==> s.threads[c].io.pending == multiset{}
    ensures c in OnHello(s, c, h).threads && Says(OnHello(s, c, h).threads[c], c)
  {
    HelloLevel(s, c, h);
    hide OnHello, MaySay, Level;
    if h.JoinSnap? {
      ListSays(s, c);
    } else if h.JoinCastSnap? {
      CastSays(s, c);
    } else {
      var t' := OnHello(s, c, h).threads[c];
      forall x: Send | Coming(x.ev)
        ensures x !in t'.io.pending && x !in t'.io.later
      {
        if !h.JoinList? && !h.JoinCast? {
          NothingToSay(s.threads[c], c, x);
        }
        HelloQueues(s, c, h, x);
      }
      Silent(t', c);
    }
  }

  lemma HelloGrown(s: State, c: Cid, h: HelloPc, x: Send, pick: Ptr)
    requires c in s.threads && s.threads[c].pc == Hello(h) && !h.Credentials? && Says(s.threads[c], c)
    requires Sending(s.threads[c].pc) ==> s.threads[c].io.pending == multiset{}
    ensures Grown(s, c, OnHello(s, c, h).threads[c], x, pick)
  {
    hide Fan, TellUsers, TellClients, TellRooms, Others, OtherClients, Says;
    if Coming(x.ev) && !h.JoinList? && !h.JoinCast? {
      NothingToSay(s.threads[c], c, x);
    }
  }

  lemma RoomQueues(cfg: Config, c: Cid, t: Thread, rm: Rooms, table: set<Cid>, r: RoomPc, pick: Ptr, x: Send)
    requires CanMove(cfg, t.mem, rm, r, pick) && Coming(x.ev)
    ensures var t' := OnRoom(cfg, c, t, rm, table, r, pick).t;
            && (x in t'.io.pending || x in t'.io.later ==> x in t.io.pending || x in t.io.later)
            && t'.pc != Hello(JoinList) && t'.pc != Hello(JoinCast) && t'.pc != Bye(LeftCast)
  {
    hide Fan, TellMembers;
  }

  lemma RoomSays(cfg: Config, c: Cid, t: Thread, rm: Rooms, table: set<Cid>, r: RoomPc, pick: Ptr, x: Send)
    requires CanMove(cfg, t.mem, rm, r, pick) && t.pc == InRoom(r) && Says(t, c)
    ensures var t' := OnRoom(cfg, c, t, rm, table, r, pick).t;
            Says(t', c) && (Coming(x.ev) ==> t'.io.pending[x] == t.io.pending[x])
  {
    hide OnRoom, MaySay, CanMove;
    var t' := OnRoom(cfg, c, t, rm, table, r, pick).t;
    forall y: Send | Coming(y.ev)
      ensures y !in t'.io.pending && y !in t'.io.later && y !in t.io.pending
    {
      NothingToSay(t, c, y);
      RoomQueues(cfg, c, t, rm, table, r, pick, y);
    }
  }

  lemma ByeSays(cfg: Config, s: State, c: Cid, b: ByePc, pick: Ptr, x: Send)
    requires c in s.threads && s.threads[c].pc == Bye(b) && Says(s.threads[c], c)
    requires Sending(s.threads[c].pc) ==> s.threads[c].io.pending == multiset{}
    ensures var t' := OnBye(cfg, s, c, b, pick).threads[c];
            Says(t', c) && Grown(s, c, t', x, pick)
  {
    hide Fan, RemoveAuth, AnyLeft, OtherClients;
  }

  lemma SentIo(t: Thread, y: Send, ok: bool)
    ensures var t' := OnSent(t, y, ok);
            t'.io == NO_IO || (t'.pc == t.pc && t'.io == t.io.(pending := t.io.pending - multiset{y}))
  {
  }

  lemma SentSays(t: Thread, e: Cid, y: Send, ok: bool)
    requires Says(t, e)
    ensures Says(OnSent(t, y, ok), e)
  {
    hide OnSent;
    SentIo(t, y, ok);
    var t' := OnSent(t, y, ok);
    forall x | x in t'.io.pending && Coming(x.ev)
      ensures MaySay(t', e, x)
    {
      assert MaySay(t, e, x);
    }
  }

  lemma SentGrown(t: Thread, e: Cid, y: Send, ok: bool, x: Send)
    requires Sending(t.pc) && y in t.io.pending && Says(t, e) && Coming(x.ev)
    ensures var t', now := OnSent(t, y, ok), if x == y then 1 else 0;
            if !ok && t.pc == Hello(JoinList) then t'.failed.join && t'.io.pending[x] == 0
            else t'.io.pending[x] + now == t.io.pending[x]
  {
    assert x in t.io.pending ==> MaySay(t, e, x);
  }

  // A thread that sends nothing of the kind, before or after.
  lemma StillSays(t: Thread, t': Thread, e: Cid)
    requires Says(t, e) && t.pc != Hello(JoinList) && t.pc != Hello(JoinCast) && t.pc != Bye(LeftCast)
    requires t'.io == t.io
    ensures Says(t', e)
  {
    forall x | x in t'.io.pending && Coming(x.ev)
      ensures false
    {
      NothingToSay(t, e, x);
    }
  }

  lemma CreateSays(c: Cid, t: Thread, rm: Rooms, id: string, public: bool, x: Send)
    requires t.pc == Creating(id, public) && Says(t, c)
    ensures var t' := OnCreate(c, t, rm, id, public).t;
            Says(t', c) && (Coming(x.ev) ==> t'.io.pending[x] == t.io.pending[x])
  {
    if Coming(x.ev) {
      NothingToSay(t, c, x);
    }
  }

  lemma MoveSays(cfg: Config, s: State, a: Action, x: Send)
    requires Enabled(cfg, s, a) && a.Move? && Says(s.threads[a.c], a.c)
    ensures a.c in Apply(cfg, s, a).threads && Says(Apply(cfg, s, a).threads[a.c], a.c)
    ensures Grown(s, a.c, Apply(cfg, s, a).threads[a.c], x, a.pick)
  {
    hide OnHello, OnRoom, OnBye, OnLookup, OnCreate, WriterPending, Says, Coming;
    Membership.StepThreads(cfg, s, a);
    var t := s.threads[a.c];
    match t.pc {
      case Hello(h) =>
        HelloSays(s, a.c, h);
        HelloGrown(s, a.c, h, x, a.pick);
      case Looking(id, join) => LookupSays(t, a.c, s.rm, id, join);
      case Creating(id, public) => CreateSays(a.c, t, s.rm, id, public, x);
      case InRoom(r) => RoomSays(cfg, a.c, t, s.rm, s.table, r, a.pick, x);
      case Bye(b) => ByeSays(cfg, s, a.c, b, a.pick, x);
      case _ =>
    }
  }

  lemma LookupSays(t: Thread, e: Cid, rm: Rooms, id: string, join: bool)
    requires t.pc == Looking(id, join) && Says(t, e)
    ensures Says(OnLookup(t, rm, id, join), e) && OnLookup(t, rm, id, join).io == t.io
  {
    StillSays(t, OnLookup(t, rm, id, join), e);
  }

  lemma OwnSays(cfg: Config, s: State, a: Action, x: Send)
    requires Enabled(cfg, s, a) && !a.Accept? && Says(s.threads[a.c], a.c) && Coming(x.ev)
    ensures a.c in Apply(cfg, s, a).threads && Says(Apply(cfg, s, a).threads[a.c], a.c)
    ensures var t, t' := s.threads[a.c], Apply(cfg, s, a).threads[a.c];
            if a.Move? then Grown(s, a.c, t', x, a.pick)
            else if Stopped(t, a) then t'.failed.join && t'.io.pending[x] == 0
            else t'.io.pending[x] + (if a.Deliver? && a.x == x then 1 else 0) == t.io.pending[x]
  {
    hide OnHello, OnRoom, OnBye, OnLookup, OnCreate, OnSent, WriterPending, Says, SetAuth, First;
    var t := s.threads[a.c];
    if a.Deliver? {
      SentSays(t, a.c, a.x, a.ok);
      SentGrown(t, a.c, a.x, a.ok, x);
    } else if a.Move? {
      hide Apply, Enabled;
      MoveSays(cfg, s, a, x);
    } else {
      StillSays(t, Apply(cfg, s, a).threads[a.c], a.c);
    }
  }

  // ---- Over a run --------------------------------------------------------------------------------------------------

  // c takes its list of the others, announces itself, announces that it goes.
  predicate Lists(s: State, s': State, c: Cid) {
    c in s.threads && c in s'.threads && s.threads[c].pc == Hello(JoinSnap) && s'.threads[c].pc != Hello(JoinSnap)
  }

  predicate Casts(s: State, s': State, c: Cid) {
    && c in s.threads && c in s'.threads
    && s.threads[c].pc == Hello(JoinCastSnap) && s'.threads[c].pc != Hello(JoinCastSnap)
  }

  predicate Leaves(s: State, s': State, c: Cid) {
    c in s.threads && c in s'.threads && s.threads[c].pc == Bye(LeftSnap) && s'.threads[c].pc != Bye(LeftSnap)
  }

  // The step that puts x on the list of what e has to say.
  predicate Puts(s: State, s': State, e: Cid, x: Send) {
    || (x.ev.UserJoin? && x.to == e && x.ev.who != e && x.ev.who in s.table && Lists(s, s', e))
    || (x.ev == UserJoin(e) && x.to != e && x.to in s.table && Casts(s, s', e))
    || (x.ev == UserLeft(e) && x.to != e && x.to in s.table && Leaves(s, s', e))
  }

  ghost predicate Put(run: seq<State>, e: Cid, x: Send) {
    exists i :: 0 < i < |run| && Puts(run[i - 1], run[i], e, x)
  }

  function Waiting(s: State, e: Cid, x: Send): nat {
    if e in s.threads then s.threads[e].io.pending[x] else 0
  }

  predicate Failed(s: State, e: Cid) {
    e in s.threads && s.threads[e].failed.join
  }

  function Subject(x: Send): Cid
    requires Coming(x.ev)
  {
    x.ev.who
  }

  // All of x that was ever put on a list is sent or still to be sent, unless the receiver's list was given up.
  predicate Balanced(run: seq<State>, x: Send, put: nat)
    requires |run| > 0 && Coming(x.ev)
  {
    var s, c, d := run[|run| - 1], x.to, Subject(x);
    var told := s.sent[x] + Waiting(s, c, x) + if c == d then 0 else Waiting(s, d, x);
    told <= put && (!Failed(s, c) || x.ev.UserLeft? ==> told == put)
  }

  ghost function AllPut(run: seq<State>, x: Send): nat
    requires Coming(x.ev)
  {
    (if Put(run, x.to, x) then 1 else 0) + if x.to != Subject(x) && Put(run, Subject(x), x) then 1 else 0
  }

  lemma StepLevel(cfg: Config, s: State, a: Action, s': State, c: Cid)
    requires Enabled(cfg, s, a) && s' == Apply(cfg, s, a) && AllSay(s) && c in s.threads
    ensures c in s'.threads && Level(s'.threads[c].pc) >= Level(s.threads[c].pc)
    ensures Actor(s, a) != c ==> s'.threads[c] == s.threads[c]
  {
    hide Apply, Enabled, Says;
    Membership.StepThreads(cfg, s, a);
    if Actor(s, a) == c {
      OwnLevel(cfg, s, a);
    }
  }

  lemma StepSays(cfg: Config, s: State, a: Action, s': State)
    requires Enabled(cfg, s, a) && s' == Apply(cfg, s, a) && AllSay(s)
    ensures AllSay(s')
  {
    hide Apply, Enabled, Says;
    Membership.NewThread(cfg, s, a, s');
    Membership.StepThreads(cfg, s, a);
    if a.Accept? {
      FreshSays(cfg, s.nextId + 1);
    } else {
      OwnSays(cfg, s, a, Send(a.c, UserJoin(a.c)));
    }
  }

  lemma FreshSays(cfg: Config, c: Cid)
    ensures Says(Fresh(cfg, c), c) && !Fresh(cfg, c).failed.join
    ensures forall x: Send :: Coming(x.ev) ==> Fresh(cfg, c).io.pending[x] == 0
  {
  }

  lemma {:induction false} RunSays(cfg: Config, run: seq<State>)
    requires IsRun(cfg, run)
    ensures AllSay(run[|run| - 1])
  {
    hide Apply, Enabled, Says;
    var n := |run| - 1;
    if n > 0 {
      RunPrefix(cfg, run);
      RunSays(cfg, run[..n]);
      var a :| Enabled(cfg, run[n - 1], a) && run[n] == Apply(cfg, run[n - 1], a);
      StepSays(cfg, run[n - 1], a, run[n]);
    }
  }

  lemma {:induction false} LevelGrows(cfg: Config, run: seq<State>, i: nat, c: Cid)
    requires IsRun(cfg, run) && i < |run| && c in run[i].threads
    ensures var s := run[|run| - 1];
            c in s.threads && Level(s.threads[c].pc) >= Level(run[i].threads[c].pc)
  {
    hide Apply, Enabled, AllSay;
    var n := |run| - 1;
    if i < n {
      RunPrefix(cfg, run);
      LevelGrows(cfg, run[..n], i, c);
      RunSays(cfg, run[..n]);
      var a :| Enabled(cfg, run[n - 1], a) && run[n] == Apply(cfg, run[n - 1], a);
      StepLevel(cfg, run[n - 1], a, run[n], c);
    }
  }

  // Between two states of a run.
  lemma LevelBetween(cfg: Config, run: seq<State>, i: nat, j: nat, c: Cid)
    requires IsRun(cfg, run) && i <= j < |run| && c in run[i].threads
    ensures c in run[j].threads && Level(run[j].threads[c].pc) >= Level(run[i].threads[c].pc)
  {
    Leak.PrefixRun(cfg, run, j);
    LevelGrows(cfg, run[..j + 1], i, c);
  }

  // The level at which x is put on the list of e.
  function PutLevel(e: Cid, x: Send): int {
    if x.ev.UserLeft? then 5 else if x.to == e then 1 else 3
  }

  lemma PutsRaises(cfg: Config, run: seq<State>, i: nat, e: Cid, x: Send)
    requires IsRun(cfg, run) && 0 < i < |run| && Puts(run[i - 1], run[i], e, x)
    ensures e in run[i - 1].threads && Level(run[i - 1].threads[e].pc) == PutLevel(e, x)
    ensures e in run[i].threads && Level(run[i].threads[e].pc) > PutLevel(e, x)
  {
    LevelBetween(cfg, run, i - 1, i, e);
    hide IsRun;
  }

  // x is put on the list of e once.
  lemma PutsOnce(cfg: Config, run: seq<State>, i: nat, j: nat, e: Cid, x: Send)
    requires IsRun(cfg, run) && 0 < i < |run| && 0 < j < |run|
    requires Puts(run[i - 1], run[i], e, x) && Puts(run[j - 1], run[j], e, x)
    ensures i == j
  {
    hide Puts, IsRun, Level, PutLevel;
    PutsRaises(cfg, run, i, e, x);
    PutsRaises(cfg, run, j, e, x);
    if i < j {
      LevelBetween(cfg, run, i, j - 1, e);
    } else if j < i {
      LevelBetween(cfg, run, j, i - 1, e);
    }
  }

  // ---- The account of one announcement -----------------------------------------------------------------------------

  lemma OwnPuts(cfg: Config, s: State, a: Action, s': State, e: Cid, x: Send)
    requires Enabled(cfg, s, a) && s' == Apply(cfg, s, a) && AllSay(s) && Coming(x.ev)
    ensures Puts(s, s', e, x) <==> a.Move? && a.c == e && Offers(s, a, x)
  {
    hide Says;
    Membership.StepThreads(cfg, s, a);
    if Actor(s, a) == e && !a.Accept? {
      var pc := s.threads[e].pc;
      if pc == Hello(JoinSnap) || pc == Hello(JoinCastSnap) || pc == Bye(LeftSnap) {
        Leaving(cfg, s, a);
      }
    }
    hide Apply, Enabled;
  }

  // The three program counters are left by a move only.
  lemma Leaving(cfg: Config, s: State, a: Action)
    requires Enabled(cfg, s, a) && !a.Accept?
    requires var pc := s.threads[a.c].pc; pc == Hello(JoinSnap) || pc == Hello(JoinCastSnap) || pc == Bye(LeftSnap)
    ensures a.Move? && a.c in Apply(cfg, s, a).threads
    ensures Apply(cfg, s, a).threads[a.c].pc != s.threads[a.c].pc
  {
    hide Fan, TellClients;
  }

  function One(b: bool): nat {
    if b then 1 else 0
  }

  // What a step does to the account of x: its own thread's part of it.
  lemma OwnAccount(cfg: Config, s: State, a: Action, s': State, x: Send)
    requires Enabled(cfg, s, a) && s' == Apply(cfg, s, a) && AllSay(s) && Coming(x.ev)
    ensures var e, now := Actor(s, a), One(a.Deliver? && a.x == x);
            && s'.sent[x] == s.sent[x] + now
            && (now == 1 ==> e in {x.to, Subject(x)} && x.to != Subject(x))
            && Waiting(s', e, x) + now <= Waiting(s, e, x) + One(Puts(s, s', e, x))
            && (Waiting(s', e, x) + now < Waiting(s, e, x) + One(Puts(s, s', e, x)) ==>
                  e == x.to && x.ev.UserJoin? && Failed(s', e))
  {
    assert a.Accept? ==> s'.threads[s.nextId + 1] == Fresh(cfg, s.nextId + 1) && s.nextId + 1 !in s.threads;
    Telling.SentGrows(cfg, s, a);
    Membership.StepThreads(cfg, s, a);
    var e := Actor(s, a);
    OwnPuts(cfg, s, a, s', e, x);
    if a.Accept? {
      FreshSays(cfg, e);
    } else {
      assert a.Deliver? ==> a.x in s.threads[e].io.pending;
      OwnSays(cfg, s, a, x);
      MaySayOf(s.threads[e], e, x);
      hide Apply, Enabled, Puts, Says, Offers, MaySay;
    }
  }

  // Only the receiver and the subject of x have it to say, the receiver when it takes its list.
  lemma MaySayOf(t: Thread, e: Cid, x: Send)
    requires Says(t, e) && Coming(x.ev)
    ensures t.io.pending[x] <= 1
    ensures x in t.io.pending ==> e in {x.to, Subject(x)} && x.to != Subject(x)
    ensures x in t.io.pending && t.pc == Hello(JoinList) ==> e == x.to && x.ev.UserJoin?
  {
    assert x in t.io.pending ==> MaySay(t, e, x);
  }

  // Everybody else's part stays.
  lemma OthersAccount(cfg: Config, s: State, a: Action, s': State, e: Cid, x: Send)
    requires Enabled(cfg, s, a) && s' == Apply(cfg, s, a) && AllSay(s) && Coming(x.ev) && e != Actor(s, a)
    ensures Waiting(s', e, x) == Waiting(s, e, x) && !Puts(s, s', e, x) && (Failed(s', e) <==> Failed(s, e))
  {
    hide Says;
    OwnPuts(cfg, s, a, s', e, x);
    hide Apply, Enabled, Puts, Offers;
    Membership.StepThreads(cfg, s, a);
  }

  lemma StaysFailed(cfg: Config, s: State, a: Action, s': State, e: Cid)
    requires Enabled(cfg, s, a) && s' == Apply(cfg, s, a) && AllSay(s) && Failed(s, e)
    ensures Failed(s', e)
  {
    hide Apply, Enabled, Says;
    Membership.StepThreads(cfg, s, a);
    Notices.StepForward(cfg, s, a);
  }

  lemma PutGrows(cfg: Config, run: seq<State>, e: Cid, x: Send)
    requires IsRun(cfg, run) && |run| > 1 && Coming(x.ev)
    ensures var n := |run| - 1;
            One(Put(run, e, x)) == One(Put(run[..n], e, x)) + One(Puts(run[n - 1], run[n], e, x))
  {
    hide Puts, IsRun;
    var n := |run| - 1;
    var pre := run[..n];
    if Put(run, e, x) {
      var i :| 0 < i < |run| && Puts(run[i - 1], run[i], e, x);
      if i < n {
        assert Puts(pre[i - 1], pre[i], e, x);
      }
    }
    if Put(pre, e, x) {
      var i :| 0 < i < n && Puts(pre[i - 1], pre[i], e, x);
      assert Puts(run[i - 1], run[i], e, x);
      if Puts(run[n - 1], run[n], e, x) {
        PutsOnce(cfg, run, i, n, e, x);
      }
    }
  }

  lemma StepBalanced(cfg: Config, run: seq<State>, a: Action, x: Send)
    requires IsRun(cfg, run) && |run| > 1 && Coming(x.ev) && AllSay(run[|run| - 2])
    requires Enabled(cfg, run[|run| - 2], a) && run[|run| - 1] == Apply(cfg, run[|run| - 2], a)
    requires Balanced(run[..|run| - 1], x, AllPut(run[..|run| - 1], x))
    ensures Balanced(run, x, AllPut(run, x))
  {
    hide IsRun, Apply, Enabled, Puts, Put, Waiting, Failed, AllSay;
    var n, c, d := |run| - 1, x.to, Subject(x);
    var s, s', e := run[n - 1], run[n], Actor(run[n - 1], a);
    PutGrows(cfg, run, c, x);
    PutGrows(cfg, run, d, x);
    OwnAccount(cfg, s, a, s', x);
    if c != e {
      OthersAccount(cfg, s, a, s', c, x);
    }
    if d != e {
      OthersAccount(cfg, s, a, s', d, x);
    }
    if Failed(s, c) {
      StaysFailed(cfg, s, a, s', c);
    }
  }

  // In every interleaving, an announcement that a connection has come or gone is put on the lists when the tables say
  // so, and every one that is, is sent or still to be sent, unless its receiver gave up its own list.
  lemma {:induction false} Account(cfg: Config, run: seq<State>, x: Send)
    requires IsRun(cfg, run) && Coming(x.ev)
    ensures Balanced(run, x, AllPut(run, x))
  {
    var n := |run| - 1;
    if n == 0 {
      assert !Put(run, x.to, x) && !Put(run, Subject(x), x);
    } else {
      hide Apply, Enabled, AllSay, Balanced, AllPut;
      RunPrefix(cfg, run);
      RunSays(cfg, run[..n]);
      Account(cfg, run[..n], x);
      var a :| Enabled(cfg, run[n - 1], a) && run[n] == Apply(cfg, run[n - 1], a);
      StepBalanced(cfg, run, a, x);
    }
  }

  // ---- Who is told -------------------------------------------------------------------------------------------------

  // Whoever announces a coming or going does it at its time: a newcomer is told of others by its own list, a connection
  // announces that it comes in onJoin and that it goes in onLeft, and nobody is told of itself.
  lemma SpokenInTurn(cfg: Config, s: State, e: Cid, x: Send, ok: bool)
    requires Reachable(cfg, s) && Enabled(cfg, s, Deliver(e, x, ok)) && Coming(x.ev)
    ensures match s.threads[e].pc
            case Hello(h) =>
              if h.JoinList? then x.to == e && x.ev.UserJoin? && x.ev.who != e
              else h.JoinCast? && x.to != e && x.ev == UserJoin(e)
            case Bye(b) => b.LeftCast? && x.to != e && x.ev == UserLeft(e)
            case _ => false
  {
    var run :| IsRun(cfg, run) && run[|run| - 1] == s;
    RunSays(cfg, run);
    assert MaySay(s.threads[e], e, x);
  }

  // A step that every connection makes once, told by the level it leaves.
  lemma Once(cfg: Config, run: seq<State>, i: nat, j: nat, c: Cid, level: int)
    requires IsRun(cfg, run) && 0 < i < |run| && 0 < j < |run|
    requires c in run[i - 1].threads && c in run[j - 1].threads && c in run[i].threads && c in run[j].threads
    requires Level(run[i - 1].threads[c].pc) == level < Level(run[i].threads[c].pc)
    requires Level(run[j - 1].threads[c].pc) == level < Level(run[j].threads[c].pc)
    ensures i == j
  {
    hide IsRun, Level;
    if i < j {
      LevelBetween(cfg, run, i, j - 1, c);
    } else if j < i {
      LevelBetween(cfg, run, j, i - 1, c);
    }
  }

  lemma LeavesRaises(cfg: Config, run: seq<State>, i: nat, c: Cid)
    requires IsRun(cfg, run) && 0 < i < |run| && Leaves(run[i - 1], run[i], c)
    ensures c in run[i - 1].threads && c in run[i].threads
    ensures Level(run[i - 1].threads[c].pc) == 5 < Level(run[i].threads[c].pc)
  {
    LevelBetween(cfg, run, i - 1, i, c);
    hide IsRun;
  }

  // The lists of others say nothing of a departure, nor does the leaver's before and after.
  lemma NoDeparture(t: Thread, e: Cid, x: Send)
    requires Says(t, e) && x.ev.UserLeft? && (e != x.ev.who || t.pc != Bye(LeftCast))
    ensures t.io.pending[x] == 0
  {
    assert x in t.io.pending ==> MaySay(t, e, x);
  }

  // A departure is put on a list by the leaver, in the step of its onLeft.
  lemma DeparturePuts(cfg: Config, run: seq<State>, i: nat, j: nat, e: Cid, d: Cid, x: Send)
    requires IsRun(cfg, run) && 0 < i < |run| && 0 < j < |run| && Leaves(run[j - 1], run[j], d) && x.ev == UserLeft(d)
    requires Puts(run[i - 1], run[i], e, x)
    ensures e == d && i == j
  {
    hide IsRun, Level;
    LeavesRaises(cfg, run, i, d);
    LeavesRaises(cfg, run, j, d);
    Once(cfg, run, i, j, d, 5);
  }

  lemma DepartureBy(cfg: Config, run: seq<State>, j: nat, e: Cid, d: Cid, x: Send)
    requires IsRun(cfg, run) && 0 < j < |run| && Leaves(run[j - 1], run[j], d) && x.ev == UserLeft(d)
    ensures Put(run, e, x) ==> e == d && Puts(run[j - 1], run[j], d, x)
    ensures !Put(run[..j], e, x)
  {
    hide IsRun, Puts, Leaves;
    var pre := run[..j];
    if Put(run, e, x) {
      var i :| 0 < i < |run| && Puts(run[i - 1], run[i], e, x);
      DeparturePuts(cfg, run, i, j, e, d, x);
    }
    if Put(pre, e, x) {
      var i :| 0 < i < |pre| && Puts(pre[i - 1], pre[i], e, x);
      DeparturePuts(cfg, run, i, j, e, d, x);
      assert false;
    }
  }

  lemma DeparturePut(cfg: Config, run: seq<State>, j: nat, c: Cid, d: Cid)
    requires IsRun(cfg, run) && 0 < j < |run| && Leaves(run[j - 1], run[j], d)
    ensures AllPut(run, Send(c, UserLeft(d))) == One(c != d && c in run[j - 1].table)
    ensures AllPut(run[..j], Send(c, UserLeft(d))) == 0
  {
    var x := Send(c, UserLeft(d));
    DepartureBy(cfg, run, j, c, d, x);
    DepartureBy(cfg, run, j, d, d, x);
    hide IsRun;
    var now := c != d && c in run[j - 1].table;
    assert Puts(run[j - 1], run[j], d, x) <==> now;
    hide Puts, Leaves;
    if now {
      assert Put(run, d, x);
    }
    hide Put;
  }

  // In every interleaving, once the onLeft of a connection is over, its departure has been sent exactly to the other
  // connections that were in the client table when onLeft looked, and to each of them once; before, to nobody.
  lemma DepartureTold(cfg: Config, run: seq<State>, j: nat, c: Cid, d: Cid)
    requires IsRun(cfg, run) && 0 < j < |run| && Leaves(run[j - 1], run[j], d)
    requires var s := run[|run| - 1]; d in s.threads && s.threads[d].pc != Bye(LeftCast)
    ensures var x := Send(c, UserLeft(d));
            && run[j - 1].sent[x] == 0
            && run[|run| - 1].sent[x] == One(c != d && c in run[j - 1].table)
  {
    var x, s := Send(c, UserLeft(d)), run[|run| - 1];
    RunSays(cfg, run);
    Account(cfg, run, x);
    DeparturePut(cfg, run, j, c, d);
    NoDeparture(s.threads[d], d, x);
    if c in s.threads {
      NoDeparture(s.threads[c], c, x);
    }
    Leak.PrefixRun(cfg, run, j - 1);
    Account(cfg, run[..j], x);
  }

  // The announcement of d took in c.
  ghost predicate CastTo(run: seq<State>, c: Cid, d: Cid) {
    exists m :: 0 < m < |run| && Casts(run[m - 1], run[m], d) && c in run[m - 1].table
  }

  lemma ListsRaises(cfg: Config, run: seq<State>, i: nat, c: Cid)
    requires IsRun(cfg, run) && 0 < i < |run| && Lists(run[i - 1], run[i], c)
    ensures c in run[i - 1].threads && c in run[i].threads
    ensures Level(run[i - 1].threads[c].pc) == 1 < Level(run[i].threads[c].pc)
  {
    LevelBetween(cfg, run, i - 1, i, c);
    hide IsRun;
  }

  lemma ListPut(cfg: Config, run: seq<State>, k: nat, c: Cid, d: Cid)
    requires IsRun(cfg, run) && 0 < k < |run| && Lists(run[k - 1], run[k], c) && c != d
    ensures Put(run, c, Send(c, UserJoin(d))) <==> d in run[k - 1].table
  {
    var x := Send(c, UserJoin(d));
    assert Puts(run[k - 1], run[k], c, x) <==> d in run[k - 1].table;
    ListsRaises(cfg, run, k, c);
    hide IsRun, Level;
    if Put(run, c, x) {
      var i :| 0 < i < |run| && Puts(run[i - 1], run[i], c, x);
      ListsRaises(cfg, run, i, c);
      Once(cfg, run, i, k, c, 1);
    }
  }

  lemma CastPut(run: seq<State>, c: Cid, d: Cid)
    requires c != d
    ensures Put(run, d, Send(c, UserJoin(d))) <==> CastTo(run, c, d)
  {
    var x := Send(c, UserJoin(d));
    if Put(run, d, x) {
      var i :| 0 < i < |run| && Puts(run[i - 1], run[i], d, x);
      assert Casts(run[i - 1], run[i], d);
    }
    if CastTo(run, c, d) {
      var i :| 0 < i < |run| && Casts(run[i - 1], run[i], d) && c in run[i - 1].table;
      assert Puts(run[i - 1], run[i], d, x);
    }
  }

  lemma NoArrival(t: Thread, e: Cid, x: Send)
    requires Says(t, e) && x.ev.UserJoin? && t.pc != Hello(if e == x.to then JoinList else JoinCast)
    ensures t.io.pending[x] == 0
  {
    assert x in t.io.pending ==> MaySay(t, e, x);
  }

  // In every interleaving, once onJoin of c has sent its list without an error, c has been sent d as often as the
  // tables say: once when d was in the client table as c took its list, and once when c was in it as d announced
  // itself.
  lemma ArrivalTold(cfg: Config, run: seq<State>, k: nat, c: Cid, d: Cid)
    requires IsRun(cfg, run) && 0 < k < |run| && Lists(run[k - 1], run[k], c) && c != d
    requires var s := run[|run| - 1];
             && c in s.threads && s.threads[c].pc != Hello(JoinList) && !s.threads[c].failed.join
             && (d in s.threads ==> s.threads[d].pc != Hello(JoinCast))
    ensures run[|run| - 1].sent[Send(c, UserJoin(d))] == One(d in run[k - 1].table) + One(CastTo(run, c, d))
  {
    var x, s := Send(c, UserJoin(d)), run[|run| - 1];
    RunSays(cfg, run);
    Account(cfg, run, x);
    ListPut(cfg, run, k, c, d);
    CastPut(run, c, d);
    NoArrival(s.threads[c], c, x);
    if d in s.threads {
      NoArrival(s.threads[d], d, x);
    }
    hide IsRun, Put, CastTo, Says;
  }

  lemma GivesUp(cfg: Config, s: State, c: Cid, x: Send)
    requires Enabled(cfg, s, Deliver(c, x, false)) && s.threads[c].pc == Hello(JoinList)
    ensures var s' := Apply(cfg, s, Deliver(c, x, false));
            && c in s.threads && Level(s.threads[c].pc) == 2
            && c in s'.threads && Level(s'.threads[c].pc) == 4
  {
  }

  // Past the announcement without having made it.
  lemma NeverCasts(cfg: Config, run: seq<State>, i: nat, c: Cid, m: nat)
    requires IsRun(cfg, run) && 0 < i < |run| && c in run[i - 1].threads && c in run[i].threads
    requires Level(run[i - 1].threads[c].pc) < 3 < Level(run[i].threads[c].pc)
    requires 0 < m < |run|
    ensures !Casts(run[m - 1], run[m], c)
  {
    hide IsRun, Level, Casts;
    if Casts(run[m - 1], run[m], c) {
      CastsLevel(run[m - 1], run[m], c);
      if m < i {
        LevelBetween(cfg, run, m - 1, i - 1, c);
      } else if i < m {
        LevelBetween(cfg, run, i, m - 1, c);
      }
    }
  }

  // A connection whose own list failed announces itself to nobody: others learn of it by their own lists only.
  lemma FailedListIsSilent(cfg: Config, run: seq<State>, i: nat, c: Cid, d: Cid, x: Send)
    requires IsRun(cfg, run) && 0 < i < |run| && Enabled(cfg, run[i - 1], Deliver(c, x, false))
    requires run[i] == Apply(cfg, run[i - 1], Deliver(c, x, false)) && run[i - 1].threads[c].pc == Hello(JoinList)
    ensures !CastTo(run, d, c)
  {
    hide IsRun, Apply, Enabled, Level, Casts;
    GivesUp(cfg, run[i - 1], c, x);
    forall m: nat | 0 < m < |run|
      ensures !Casts(run[m - 1], run[m], c)
    {
      NeverCasts(cfg, run, i, c, m);
    }
  }

  // A connection is in the client table exactly on the levels from onJoin to onLeft.
  lemma TableLevel(cfg: Config, run: seq<State>, i: nat, c: Cid)
    requires IsRun(cfg, run) && i < |run|
    ensures c in run[i].table <==> c in run[i].threads && 1 <= Level(run[i].threads[c].pc) <= 7
  {
    Leak.PrefixRun(cfg, run, i);
    Lifecycle.RunInv(cfg, run[..i + 1]);
    var s := run[i];
    hide IsRun;
    if c in s.threads {
      assert Lifecycle.Placed(cfg, s.table, s.conns, s.readers, c, s.threads[c]);
    }
  }

  // Who is in the table, and is in it later, is in it in between.
  lemma StaysIn(cfg: Config, run: seq<State>, i: nat, j: nat, c: Cid)
    requires IsRun(cfg, run) && i <= j < |run| && c in run[i].table && c in run[|run| - 1].table
    ensures c in run[j].table
  {
    hide IsRun, Level;
    TableLevel(cfg, run, i, c);
    TableLevel(cfg, run, j, c);
    TableLevel(cfg, run, |run| - 1, c);
    LevelBetween(cfg, run, i, j, c);
    LevelBetween(cfg, run, j, |run| - 1, c);
  }

  lemma CastsLevel(s: State, s': State, d: Cid)
    requires Casts(s, s', d)
    ensures d in s.threads && Level(s.threads[d].pc) == 3
  {
  }

  // onJoin comes before onLeft.
  lemma CastFirst(cfg: Config, run: seq<State>, m: nat, j: nat, d: Cid)
    requires IsRun(cfg, run) && 0 < m < |run| && 0 < j < |run|
    requires Casts(run[m - 1], run[m], d) && Leaves(run[j - 1], run[j], d)
    ensures m <= j
  {
    hide IsRun, Level, Casts, Leaves;
    LeavesRaises(cfg, run, j, d);
    CastsLevel(run[m - 1], run[m], d);
    if j <= m - 1 {
      LevelBetween(cfg, run, j, m - 1, d);
    }
  }

  lemma CastBeforeLeft(cfg: Config, run: seq<State>, j: nat, c: Cid, d: Cid)
    requires IsRun(cfg, run) && 0 < j < |run| && Leaves(run[j - 1], run[j], d) && CastTo(run, c, d)
    requires c in run[|run| - 1].table
    ensures c in run[j - 1].table
  {
    hide IsRun, Casts, Leaves;
    var m :| 0 < m < |run| && Casts(run[m - 1], run[m], d) && c in run[m - 1].table;
    CastFirst(cfg, run, m, j, d);
    StaysIn(cfg, run, m - 1, j - 1, c);
  }

  lemma AfterLeft(cfg: Config, run: seq<State>, j: nat, d: Cid)
    requires IsRun(cfg, run) && 0 < j < |run| && Leaves(run[j - 1], run[j], d)
    ensures var s := run[|run| - 1];
            d in s.threads && s.threads[d].pc != Hello(JoinCast)
  {
    hide IsRun, Leaves, Level;
    LeavesRaises(cfg, run, j, d);
    LevelBetween(cfg, run, j, |run| - 1, d);
    CastLevel();
  }

  lemma CastLevel()
    ensures Level(Hello(JoinCast)) == 4
  {
  }

  // A connection shows one that has gone: it was sent the arrival of d, and never its departure. That is so exactly
  // when c entered the client table after the onLeft of d had looked, and took its list before d was removed.
  lemma StaleArrivalIff(cfg: Config, run: seq<State>, k: nat, j: nat, c: Cid, d: Cid)
    requires IsRun(cfg, run) && c != d
    requires 0 < k < |run| && Lists(run[k - 1], run[k], c)
    requires 0 < j < |run| && Leaves(run[j - 1], run[j], d)
    requires var s := run[|run| - 1];
             && c in s.table && c in s.threads && s.threads[c].pc != Hello(JoinList) && !s.threads[c].failed.join
             && d in s.threads && s.threads[d].pc != Bye(LeftCast)
    ensures var s := run[|run| - 1];
            && (s.sent[Send(c, UserJoin(d))] > 0 && s.sent[Send(c, UserLeft(d))] == 0) <==>
               (d in run[k - 1].table && c !in run[j - 1].table)
  {
    hide IsRun, CastTo, Lists, Leaves;
    AfterLeft(cfg, run, j, d);
    ArrivalTold(cfg, run, k, c, d);
    DepartureTold(cfg, run, j, c, d);
    if CastTo(run, c, d) {
      CastBeforeLeft(cfg, run, j, c, d);
    }
  }

  // ---- It happens --------------------------------------------------------------------------------------------------

  // Nobody has told a connection that is not in the client table yet that another has gone.
  lemma NotToldYet(cfg: Config, s: State, c: Cid, d: Cid)
    requires Reachable(cfg, s) && c != d && c in s.threads && s.threads[c].pc == Hello(Connecting)
    ensures s.sent[Send(c, UserLeft(d))] == 0
  {
    var run: seq<State> :| IsRun(cfg, run) && run[|run| - 1] == s;
    var x := Send(c, UserLeft(d));
    hide Reachable, Put, Puts;
    Account(cfg, run, x);
    NotPutYet(cfg, run, d, x);
    NotPutYet(cfg, run, c, x);
  }

  lemma NotPutYet(cfg: Config, run: seq<State>, e: Cid, x: Send)
    requires IsRun(cfg, run) && x.ev.UserLeft?
    requires var s := run[|run| - 1]; x.to in s.threads && s.threads[x.to].pc == Hello(Connecting)
    ensures !Put(run, e, x)
  {
    hide IsRun;
    if Put(run, e, x) {
      var i: nat :| 0 < i < |run| && Puts(run[i - 1], run[i], e, x);
      assert x.to in run[i - 1].table;
      hide Puts;
      TableLevel(cfg, run, i - 1, x.to);
      LevelBetween(cfg, run, i - 1, |run| - 1, x.to);
    }
  }

  // The first connection is at work, the second has authenticated.
  lemma OneAndTwo(cfg: Config) returns (s: State)
    ensures Reachable(cfg, s) && s.threads.Keys == {1, 2} && s.table == {1} && s.threads[2].pc == Hello(Connecting)
    ensures s.threads[1].pc.Idle? && s.threads[1].mem.index == map[] && s.threads[1].io == NO_IO
  {
    hide Reachable;
    ReachInit(cfg);
    s := Witness.ComingIn(cfg, Init());
    ReachNext(cfg, s, Accept);
    s := Apply(cfg, s, Accept);
    if cfg.auth {
      s := Witness.Authenticating(cfg, s, 2);
    }
    OnlyOneIn(cfg, s);
  }

  lemma OnlyOneIn(cfg: Config, s: State)
    requires Reachable(cfg, s) && s.threads.Keys == {1, 2}
    requires s.threads[1].pc.Idle? && s.threads[2].pc == Hello(Connecting)
    ensures s.table == {1}
  {
    Lifecycle.ReachableInv(cfg, s);
    hide Reachable;
    assert Lifecycle.Placed(cfg, s.table, s.conns, s.readers, 1, s.threads[1]);
    assert Lifecycle.Placed(cfg, s.table, s.conns, s.readers, 2, s.threads[2]);
    forall c
      ensures c in s.table <==> c == 1
    {
      assert c in s.table ==> c in s.threads.Keys;
    }
  }

  // The first connection goes, and has looked whom to tell.
  lemma OneGoing(cfg: Config, s: State) returns (s': State)
    requires Reachable(cfg, s) && 1 in s.threads && s.table == {1} && s.threads[1].pc.Idle?
    requires s.threads[1].mem.index == map[] && s.threads[1].io == NO_IO
    ensures Reachable(cfg, s') && Witness.Only(s, s', 1) && s'.sent == s.sent
    ensures s'.threads[1].pc == Bye(LeftCast) && s'.threads[1].io == NO_IO
  {
    hide Reachable, Fan;
    ReachNext(cfg, s, Hangup(1));
    s' := Apply(cfg, s, Hangup(1));
    s' := Witness.Step(cfg, s', 1);
    s' := Witness.Step(cfg, s', 1);
    var t := s'.threads[1];
    assert s'.table - {1} == {};
    s' := Witness.Step(cfg, s', 1);
    NobodyLeft(s'.table - {1}, UserLeft(1));
  }

  lemma NobodyLeft(to: set<Cid>, ev: Event)
    requires to == {}
    ensures Fan(to, ev) == multiset{}
  {
    hide Fan;
    var m := Fan(to, ev);
    assert forall x :: m[x] == 0;
  }

  // The second one comes in and is told of the first.
  lemma TwoComing(cfg: Config, s: State, x: Send) returns (s': State)
    requires Reachable(cfg, s) && 2 in s.threads && s.threads[2].pc == Hello(Connecting) && s.table == {1}
    requires x.ev.UserLeft? && x !in s.sent
    ensures Reachable(cfg, s') && 2 in s'.threads && s'.threads == s.threads[2 := s'.threads[2]]
    ensures s'.table == {1, 2} && x !in s'.sent && Send(2, UserJoin(1)) in s'.sent
    ensures s'.threads[2].pc == Hello(JoinCastSnap)
  {
    hide Reachable, Apply, Enabled, Fan, TellClients;
    s' := Witness.HelloStep(cfg, s, 2);
    assert s'.table - {2} == {1};
    s' := Witness.HelloStep(cfg, s', 2);
    s' := Witness.Drain(cfg, s', 2);
    s' := Witness.HelloStep(cfg, s', 2);
  }

  // And announces itself.
  lemma TwoCasting(cfg: Config, s: State, x: Send) returns (s': State)
    requires Reachable(cfg, s) && 2 in s.threads && s.threads[2].pc == Hello(JoinCastSnap)
    requires x.ev.UserLeft? && x !in s.sent
    ensures Reachable(cfg, s') && Witness.Only(s, s', 2) && s.sent <= s'.sent && x !in s'.sent
    ensures s'.threads[2].pc == Hello(RoomsSnap)
  {
    hide Reachable, Apply, Enabled, Fan;
    s' := Witness.HelloStep(cfg, s, 2);
    s' := Witness.Drain(cfg, s', 2);
    s' := Witness.HelloStep(cfg, s', 2);
  }

  // A run after which the second connection is served, was sent that the first one came, and not that it has gone,
  // although it has.
  lemma StaleArrival(cfg: Config)
    ensures exists s: State ::
              && Reachable(cfg, s) && s.table == {2} && 1 in s.threads && Level(s.threads[1].pc) == 8
              && 2 in s.threads && Notices.Joined(s.threads[2].pc)
              && Send(2, UserJoin(1)) in s.sent && Send(2, UserLeft(1)) !in s.sent
  {
    hide Reachable;
    var s := OneAndTwo(cfg);
    NotToldYet(cfg, s, 2, 1);
    s := OneGoing(cfg, s);
    s := TwoComing(cfg, s, Send(2, UserLeft(1)));
    s := TwoCasting(cfg, s, Send(2, UserLeft(1)));
    s := Witness.Step(cfg, s, 1);
    s := Witness.Step(cfg, s, 1);
  }
}
