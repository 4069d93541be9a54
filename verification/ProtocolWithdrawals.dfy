// Presence with authentication, in every interleaving: who is told that a user has gone, and how often.
module ProtocolWithdrawals {
  import opened ConnSpec
  import opened Protocol
  import Membership = ProtocolMembership
  import Lifecycle = ProtocolLifecycle
  import Telling = ProtocolTelling

  // A connection that is revoked goes on to withdraw its user exactly when no other registered connection is of it.
  lemma WithdrawsIff(cfg: Config, s: State, d: Cid, pick: Ptr)
    requires cfg.auth && Reachable(cfg, s) && d in s.threads && s.threads[d].pc == Bye(Revoking)
    ensures var s', u := Apply(cfg, s, Move(d, pick)), s.threads[d].user;
            && d in s.conns.clients && s.conns.clients[d] == u
            && s'.conns.clients == s.conns.clients - {d}
            && (s'.threads[d].pc == Bye(RevokeSnap) <==>
                  !exists e :: e != d && e in s.conns.clients && s.conns.clients[e] == u)
            && (s'.threads[d].pc == Bye(RevokeSnap) || s'.threads[d].pc == Done)
  {
    Lifecycle.ReachableInv(cfg, s);
    assert Lifecycle.Placed(cfg, s.table, s.conns, s.readers, d, s.threads[d]);
    hide Reachable;
    RemoveAuthGrouped(s.conns, d);
    hide Grouped, AnyLeft;
  }

  // ---- What is pending ---------------------------------------------------------------------------------------------

  predicate MayWithdraw(t: Thread, x: Send) {
    t.pc == Bye(RevokeCast) && x.ev == AuthLeft(t.user) && t.io.pending[x] == 1
  }

  predicate Withdrawing(t: Thread) {
    && (forall x :: x in t.io.pending && x.ev.AuthLeft? ==> MayWithdraw(t, x))
    && (forall x :: x in t.io.later ==> !x.ev.AuthLeft?)
  }

  // A move that puts x on the list of its thread.
  predicate Offers(s: State, e: Cid, x: Send)
    requires e in s.threads
  {
    && s.threads[e].pc == Bye(RevokeSnap) && x.ev == AuthLeft(s.threads[e].user)
    && x.to in OtherClients(s.conns, s.threads[e].user)
  }

  predicate Quiet(t: Thread, t': Thread, x: Send) {
    x in t'.io.pending || x in t'.io.later ==> x in t.io.pending || x in t.io.later
  }

  lemma HelloQuiet(s: State, c: Cid, h: HelloPc, x: Send)
    requires c in s.threads && s.threads[c].pc == Hello(h) && x.ev.AuthLeft?
    ensures c in OnHello(s, c, h).threads && Quiet(s.threads[c], OnHello(s, c, h).threads[c], x)
  {
    hide Fan, TellUsers, TellClients, TellRooms, Others, OtherClients;
  }

  lemma RoomQuiet(cfg: Config, c: Cid, t: Thread, rm: Rooms, table: set<Cid>, r: RoomPc, pick: Ptr, x: Send)
    requires CanMove(cfg, t.mem, rm, r, pick) && x.ev.AuthLeft?
    ensures Quiet(t, OnRoom(cfg, c, t, rm, table, r, pick).t, x)
  {
    hide Fan, TellMembers;
  }

  lemma ByeQuiet(cfg: Config, s: State, c: Cid, b: ByePc, pick: Ptr, x: Send)
    requires c in s.threads && s.threads[c].pc == Bye(b) && !b.RevokeSnap? && x.ev.AuthLeft?
    ensures c in OnBye(cfg, s, c, b, pick).threads && Quiet(s.threads[c], OnBye(cfg, s, c, b, pick).threads[c], x)
  {
    hide Fan, RemoveAuth, AnyLeft, OtherClients;
  }

  lemma MoveQuiet(cfg: Config, s: State, a: Action, x: Send)
    requires Enabled(cfg, s, a) && !a.Accept? && !a.Deliver? && s.threads[a.c].pc != Bye(RevokeSnap) && x.ev.AuthLeft?
    ensures a.c in Apply(cfg, s, a).threads && Quiet(s.threads[a.c], Apply(cfg, s, a).threads[a.c], x)
  {
    hide OnHello, OnBye, OnRoom, WriterPending, SetAuth, First;
    if a.Move? {
      match s.threads[a.c].pc {
        case Hello(h) => HelloQuiet(s, a.c, h, x);
        case InRoom(r) => RoomQuiet(cfg, a.c, s.threads[a.c], s.rm, s.table, r, a.pick, x);
        case Bye(b) => ByeQuiet(cfg, s, a.c, b, a.pick, x);
        case _ =>
      }
    }
  }

  lemma SnapWithdraws(cfg: Config, s: State, e: Cid, pick: Ptr, x: Send)
    requires e in s.threads && s.threads[e].pc == Bye(RevokeSnap) && x.ev.AuthLeft?
    ensures var t' := OnBye(cfg, s, e, RevokeSnap, pick).threads[e];
            && t'.pc == Bye(RevokeCast) && Withdrawing(t')
            && (x in t'.io.pending <==> Offers(s, e, x))
  {
    hide Fan;
  }

  lemma NoWithdrawal(t: Thread, x: Send)
    requires Withdrawing(t) && t.pc != Bye(RevokeCast) && x.ev.AuthLeft?
    ensures x !in t.io.pending && x !in t.io.later
  {
  }

  lemma SentWithdraws(t: Thread, y: Send, ok: bool, x: Send)
    requires Sending(t.pc) && y in t.io.pending && Withdrawing(t) && x.ev.AuthLeft?
    ensures var t' := OnSent(t, y, ok);
            && Withdrawing(t')
            && (x in t'.io.pending <==> x in t.io.pending && x != y)
  {
    if t.pc != Bye(RevokeCast) {
      forall z: Send | z.ev.AuthLeft?
        ensures z !in t.io.pending
      {
        NoWithdrawal(t, z);
      }
    } else {
      assert x in t.io.pending ==> MayWithdraw(t, x);
    }
  }

  // What a step of a thread does to its withdrawals.
  lemma OwnWithdraws(cfg: Config, s: State, a: Action, s': State, x: Send)
    requires Enabled(cfg, s, a) && s' == Apply(cfg, s, a) && !a.Accept? && Withdrawing(s.threads[a.c]) && x.ev.AuthLeft?
    ensures a.c in s'.threads && Withdrawing(s'.threads[a.c])
    ensures x in s'.threads[a.c].io.pending <==>
            (x in s.threads[a.c].io.pending && !(a.Deliver? && a.x == x)) || (a.Move? && Offers(s, a.c, x))
  {
    hide OnHello, OnBye, OnRoom, OnCreate, OnLookup, OnSent, WriterPending, SetAuth, First, Withdrawing, OtherClients;
    Membership.StepThreads(cfg, s, a);
    var t := s.threads[a.c];
    if a.Deliver? {
      SentWithdraws(t, a.x, a.ok, x);
    } else if t.pc == Bye(RevokeSnap) {
      NoWithdrawal(t, x);
      SnapWithdraws(cfg, s, a.c, a.pick, x);
    } else {
      OtherMove(cfg, s, a, s', x);
    }
  }

  lemma OtherMove(cfg: Config, s: State, a: Action, s': State, x: Send)
    requires Enabled(cfg, s, a) && s' == Apply(cfg, s, a) && !a.Accept? && !a.Deliver?
    requires Withdrawing(s.threads[a.c]) && x.ev.AuthLeft? && s.threads[a.c].pc != Bye(RevokeSnap)
    ensures a.c in s'.threads && Withdrawing(s'.threads[a.c])
    ensures x !in s'.threads[a.c].io.pending && x !in s.threads[a.c].io.pending
  {
    var t := s.threads[a.c];
    Membership.StepThreads(cfg, s, a);
    forall z: Send | z.ev.AuthLeft?
      ensures z !in t.io.pending && z !in t.io.later
    {
      if t.pc == Bye(RevokeCast) {
        NothingPending(cfg, s, a, z);
      } else {
        NoWithdrawal(t, z);
      }
    }
    hide Apply, Enabled;
    forall z: Send | z.ev.AuthLeft?
      ensures z !in s'.threads[a.c].io.pending && z !in s'.threads[a.c].io.later
    {
      MoveQuiet(cfg, s, a, z);
    }
  }

  lemma NothingPending(cfg: Config, s: State, a: Action, x: Send)
    requires Enabled(cfg, s, a) && !a.Accept? && !a.Deliver? && s.threads[a.c].pc == Bye(RevokeCast)
    requires Withdrawing(s.threads[a.c]) && x.ev.AuthLeft?
    ensures x !in s.threads[a.c].io.pending && x !in s.threads[a.c].io.later
  {
  }

  // ---- Over a run --------------------------------------------------------------------------------------------------

  // d, the last connection of its user to be revoked, looks whom to tell that the user has gone, and x is among that.
  predicate Withdraws(s: State, s': State, d: Cid, x: Send) {
    && d in s.threads && d in s'.threads && s'.threads[d].pc != Bye(RevokeSnap) && Offers(s, d, x)
  }

  ghost predicate Withdrew(run: seq<State>, d: Cid, x: Send) {
    exists i :: 0 < i < |run| && Withdraws(run[i - 1], run[i], d, x)
  }

  ghost function Withdrawers(run: seq<State>, x: Send): set<Cid>
    requires |run| > 0
  {
    set d | d in run[|run| - 1].threads && Withdrew(run, d, x)
  }

  // Who has x still to say.
  function Owing(s: State, x: Send): set<Cid> {
    set d | d in s.threads && x in s.threads[d].io.pending
  }

  ghost predicate AllWithdrawing(s: State) {
    forall d :: d in s.threads ==> d <= s.nextId && Withdrawing(s.threads[d])
  }

  lemma FreshWithdraws(cfg: Config, c: Cid)
    ensures Withdrawing(Fresh(cfg, c))
    ensures forall x: Send :: x.ev.AuthLeft? ==> x !in Fresh(cfg, c).io.pending
  {
  }

  lemma StepWithdrawing(cfg: Config, s: State, a: Action, s': State)
    requires Enabled(cfg, s, a) && s' == Apply(cfg, s, a) && AllWithdrawing(s)
    ensures AllWithdrawing(s')
  {
    hide Apply, Enabled, Withdrawing;
    Membership.NewThread(cfg, s, a, s');
    Membership.StepThreads(cfg, s, a);
    if a.Accept? {
      FreshWithdraws(cfg, s.nextId + 1);
    } else {
      OwnWithdraws(cfg, s, a, s', Send(a.c, AuthLeft("")));
    }
  }

  lemma {:induction false} RunWithdrawing(cfg: Config, run: seq<State>)
    requires IsRun(cfg, run)
    ensures AllWithdrawing(run[|run| - 1])
  {
    hide Apply, Enabled, Withdrawing;
    var n := |run| - 1;
    if n > 0 {
      RunPrefix(cfg, run);
      RunWithdrawing(cfg, run[..n]);
      var a :| Enabled(cfg, run[n - 1], a) && run[n] == Apply(cfg, run[n - 1], a);
      StepWithdrawing(cfg, run[n - 1], a, run[n]);
    }
  }

  // The last two program counters of a revocation.
  predicate Over(s: State, d: Cid) {
    d in s.threads && (s.threads[d].pc == Bye(RevokeCast) || s.threads[d].pc == Done)
  }

  lemma StaysOver(cfg: Config, s: State, a: Action, s': State, d: Cid)
    requires Enabled(cfg, s, a) && s' == Apply(cfg, s, a) && AllWithdrawing(s) && Over(s, d)
    ensures Over(s', d)
  {
    if Actor(s, a) != d {
      hide Apply, Enabled, Withdrawing;
      Membership.StepThreads(cfg, s, a);
    }
  }

  lemma SnapOver(cfg: Config, s: State, a: Action, s': State, d: Cid, x: Send)
    requires Enabled(cfg, s, a) && s' == Apply(cfg, s, a) && AllWithdrawing(s)
    ensures Withdraws(s, s', d, x) <==> a.Move? && a.c == d && d in s.threads && Offers(s, d, x)
    ensures Withdraws(s, s', d, x) ==> Over(s', d)
  {
    hide Withdrawing, OtherClients, Fan;
    if Actor(s, a) != d {
      hide Apply, Enabled;
      Membership.StepThreads(cfg, s, a);
    }
  }

  lemma {:induction false} WithdrewOver(cfg: Config, run: seq<State>, d: Cid, x: Send)
    requires IsRun(cfg, run) && Withdrew(run, d, x)
    ensures Over(run[|run| - 1], d)
  {
    hide Apply, Enabled, Withdraws, AllWithdrawing, Over;
    var n := |run| - 1;
    var i :| 0 < i < |run| && Withdraws(run[i - 1], run[i], d, x);
    RunPrefix(cfg, run);
    RunWithdrawing(cfg, run[..n]);
    var a :| Enabled(cfg, run[n - 1], a) && run[n] == Apply(cfg, run[n - 1], a);
    if i == n {
      SnapOver(cfg, run[n - 1], a, run[n], d, x);
    } else {
      assert Withdraws(run[..n][i - 1], run[..n][i], d, x);
      WithdrewOver(cfg, run[..n], d, x);
      StaysOver(cfg, run[n - 1], a, run[n], d);
    }
  }

  lemma StepWithdrew(cfg: Config, run: seq<State>, d: Cid, x: Send)
    requires IsRun(cfg, run) && |run| > 1
    ensures var n := |run| - 1;
            && (Withdrew(run, d, x) <==> Withdrew(run[..n], d, x) || Withdraws(run[n - 1], run[n], d, x))
            && !(Withdrew(run[..n], d, x) && Withdraws(run[n - 1], run[n], d, x))
  {
    hide Withdraws, IsRun, Over;
    var n := |run| - 1;
    var pre := run[..n];
    if Withdrew(pre, d, x) {
      RunPrefix(cfg, run);
      WithdrewOver(cfg, pre, d, x);
      OverIsOver(run[n - 1], run[n], d, x);
      var i :| 0 < i < n && Withdraws(pre[i - 1], pre[i], d, x);
      assert Withdraws(run[i - 1], run[i], d, x);
    }
    if Withdrew(run, d, x) {
      var i :| 0 < i < |run| && Withdraws(run[i - 1], run[i], d, x);
      if i < n {
        assert Withdraws(pre[i - 1], pre[i], d, x);
      }
    }
  }

  lemma OverIsOver(s: State, s': State, d: Cid, x: Send)
    requires Over(s, d)
    ensures !Withdraws(s, s', d, x)
  {
  }

  lemma StepWithdrawers(cfg: Config, run: seq<State>, a: Action, x: Send)
    requires IsRun(cfg, run) && |run| > 1 && AllWithdrawing(run[|run| - 2])
    requires Enabled(cfg, run[|run| - 2], a) && run[|run| - 1] == Apply(cfg, run[|run| - 2], a)
    ensures var n := |run| - 1;
            var e := Actor(run[n - 1], a);
            && (forall d :: d in Withdrawers(run, x) <==>
                              d in Withdrawers(run[..n], x) || (d == e && Withdraws(run[n - 1], run[n], e, x)))
            && !(e in Withdrawers(run[..n], x) && Withdraws(run[n - 1], run[n], e, x))
  {
    var n := |run| - 1;
    hide IsRun, Apply, Enabled, Withdraws, Withdrew, AllWithdrawing;
    var s, s', e := run[n - 1], run[n], Actor(run[n - 1], a);
    Membership.StepThreads(cfg, s, a);
    forall d
      ensures d in Withdrawers(run, x) <==> d in Withdrawers(run[..n], x) || (d == e && Withdraws(s, s', e, x))
      ensures !(d in Withdrawers(run[..n], x) && Withdraws(s, s', d, x))
    {
      StepWithdrew(cfg, run, d, x);
      SnapOver(cfg, s, a, s', d, x);
      NotBefore(cfg, run, d, x);
      Known(s, s', d, x);
    }
  }

  lemma Known(s: State, s': State, d: Cid, x: Send)
    ensures Withdraws(s, s', d, x) ==> d in s.threads && d in s'.threads
  {
  }

  lemma NotBefore(cfg: Config, run: seq<State>, d: Cid, x: Send)
    requires IsRun(cfg, run) && |run| > 1
    ensures Withdrew(run[..|run| - 1], d, x) ==> d in run[|run| - 2].threads
  {
    hide Withdraws, Withdrew;
    RunPrefix(cfg, run);
    if Withdrew(run[..|run| - 1], d, x) {
      WithdrewOver(cfg, run[..|run| - 1], d, x);
    }
    hide IsRun;
  }

  lemma StepOwing(cfg: Config, s: State, a: Action, s': State, x: Send)
    requires AllWithdrawing(s) && Enabled(cfg, s, a) && s' == Apply(cfg, s, a) && x.ev.AuthLeft?
    ensures var e := Actor(s, a);
            && (forall d :: d in Owing(s', x) <==>
                              (d in Owing(s, x) && !(a.Deliver? && a.x == x && d == e))
                              || (d == e && Withdraws(s, s', e, x)))
            && (a.Deliver? && a.x == x ==> e in Owing(s, x))
            && !(e in Owing(s, x) && Withdraws(s, s', e, x))
  {
    hide Apply, Enabled, Withdrawing, Withdraws, Offers;
    var e := Actor(s, a);
    Membership.NewThread(cfg, s, a, s');
    Membership.StepThreads(cfg, s, a);
    SnapOver(cfg, s, a, s', e, x);
    if a.Accept? {
      FreshWithdraws(cfg, e);
    } else {
      OwnWithdraws(cfg, s, a, s', x);
      NoneOwed(s.threads[e], x);
      OffersAt(s, e, x);
    }
  }

  lemma NoneOwed(t: Thread, x: Send)
    requires Withdrawing(t) && x.ev.AuthLeft?
    ensures t.pc == Bye(RevokeSnap) ==> x !in t.io.pending
  {
  }

  lemma OffersAt(s: State, e: Cid, x: Send)
    requires e in s.threads
    ensures Offers(s, e, x) ==> s.threads[e].pc == Bye(RevokeSnap)
  {
  }

  function Count(b: bool): nat {
    if b then 1 else 0
  }

  lemma Added(a: set<Cid>, b: set<Cid>, e: Cid, more: bool)
    requires forall d: Cid :: d in b <==> d in a || (d == e && more)
    requires !(e in a && more)
    ensures |b| == |a| + Count(more)
  {
    var now := if more then a + {e} else a;
    forall d
      ensures d in b <==> d in now
    {
    }
    assert b == now;
  }

  lemma Taken(a: set<Cid>, b: set<Cid>, e: Cid, less: bool, more: bool)
    requires forall d: Cid :: d in b <==> (d in a && !(less && d == e)) || (d == e && more)
    requires (less ==> e in a) && !(e in a && more)
    ensures |b| + Count(less) == |a| + Count(more)
  {
    var now := if less then a - {e} else if more then a + {e} else a;
    forall d
      ensures d in b <==> d in now
    {
    }
    assert b == now;
  }

  predicate Even(sent: nat, owing: nat, withdrawn: nat) {
    sent + owing == withdrawn
  }

  lemma {:induction false} RunEven(cfg: Config, run: seq<State>, x: Send)
    requires IsRun(cfg, run) && x.ev.AuthLeft?
    ensures Even(run[|run| - 1].sent[x], |Owing(run[|run| - 1], x)|, |Withdrawers(run, x)|)
  {
    hide Apply, Enabled, AllWithdrawing, Owing, Withdrawers, Withdraws;
    var n := |run| - 1;
    if n == 0 {
      NobodyOwes(run, x);
    } else {
      RunPrefix(cfg, run);
      RunWithdrawing(cfg, run[..n]);
      RunEven(cfg, run[..n], x);
      var a :| Enabled(cfg, run[n - 1], a) && run[n] == Apply(cfg, run[n - 1], a);
      var s, s', e := run[n - 1], run[n], Actor(run[n - 1], a);
      StepWithdrawers(cfg, run, a, x);
      StepOwing(cfg, s, a, s', x);
      Telling.SentGrows(cfg, s, a);
      Added(Withdrawers(run[..n], x), Withdrawers(run, x), e, Withdraws(s, s', e, x));
      Taken(Owing(s, x), Owing(s', x), e, a.Deliver? && a.x == x, Withdraws(s, s', e, x));
    }
  }

  lemma NobodyOwes(run: seq<State>, x: Send)
    requires |run| == 1 && run[0] == Init()
    ensures Owing(run[0], x) == {} && Withdrawers(run, x) == {}
  {
  }

  // Conservation of withdrawals, in every interleaving: once nobody has it still to say, a connection has been told
  // that a user has gone as often as a last connection of that user was revoked while this one was registered under
  // another user.
  lemma WithdrawalsTold(cfg: Config, run: seq<State>, c: Cid, u: User)
    requires IsRun(cfg, run) && Owing(run[|run| - 1], Send(c, AuthLeft(u))) == {}
    ensures run[|run| - 1].sent[Send(c, AuthLeft(u))] == |Withdrawers(run, Send(c, AuthLeft(u)))|
  {
    hide Owing, Withdrawers;
    RunEven(cfg, run, Send(c, AuthLeft(u)));
  }
}
