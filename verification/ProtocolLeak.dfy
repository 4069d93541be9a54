// What a connection leaves behind when its CheckAuth fails after setAuth: over a run, exactly when that happens, and
// what follows from it.
module ProtocolLeak {
  import opened ConnSpec
  import opened Protocol
  import Membership = ProtocolMembership
  import Lifecycle = ProtocolLifecycle

  // A send of CheckAuth after setAuth fails: of the list of users, of the announcement of the user, or of AuthPass.
  ghost predicate FailedSend(cfg: Config, s: State, s': State, c: Cid) {
    && c in s.threads && After(s.threads[c].pc)
    && exists x: Send :: Enabled(cfg, s, Deliver(c, x, false)) && s' == Apply(cfg, s, Deliver(c, x, false))
  }

  predicate After(pc: Pc) {
    pc.Hello? && (pc.h.AuthList? || pc.h.AuthCast? || pc.h.Passing?)
  }

  // The two flags that such a send leaves.
  predicate Flagged(s: State, c: Cid) {
    c in s.threads && (s.threads[c].failed.cast || s.threads[c].failed.auth)
  }

  // A failed announcement is on its way to its end, or has led to it.
  predicate Consistent(t: Thread) {
    && (t.failed.cast ==> t.pc == Hello(AuthCast) || t.failed.auth)
    && (t.failed.auth ==> t.pc.Done?)
  }

  // ---- One step ----------------------------------------------------------------------------------------------------

  lemma RoomFlags(cfg: Config, c: Cid, t: Thread, rm: Rooms, table: set<Cid>, r: RoomPc, pick: Ptr)
    requires CanMove(cfg, t.mem, rm, r, pick)
    ensures var t' := OnRoom(cfg, c, t, rm, table, r, pick).t;
            t'.failed == t.failed && !t'.pc.Hello? && !t'.pc.Done?
  {
    hide Fan, TellMembers;
  }

  lemma HelloFlags(s: State, c: Cid, h: HelloPc)
    requires c in s.threads && s.threads[c].pc == Hello(h) && !h.Credentials? && Consistent(s.threads[c])
    ensures var t, t' := s.threads[c], OnHello(s, c, h).threads[c];
            && Consistent(t')
            && (t.failed.cast || t.failed.auth <==> t'.failed.cast || t'.failed.auth)
            && (!Lifecycle.InCheckAuth(t.pc) ==> !Lifecycle.InCheckAuth(t'.pc))
  {
    hide Fan, TellUsers, TellClients, TellRooms, Others, OtherClients;
  }

  lemma ByeFlags(cfg: Config, s: State, c: Cid, b: ByePc, pick: Ptr)
    requires c in s.threads && s.threads[c].pc == Bye(b)
    ensures var t' := OnBye(cfg, s, c, b, pick).threads[c];
            t'.failed == s.threads[c].failed && !t'.pc.Hello?
  {
    hide Fan, RemoveAuth, AnyLeft, OtherClients;
  }

  lemma MoveFlags(cfg: Config, s: State, a: Action)
    requires Enabled(cfg, s, a) && a.Move? && Consistent(s.threads[a.c])
    ensures var t, t' := s.threads[a.c], Apply(cfg, s, a).threads[a.c];
            && Consistent(t')
            && (t.failed.cast || t.failed.auth <==> t'.failed.cast || t'.failed.auth)
            && (!Lifecycle.InCheckAuth(t.pc) ==> !Lifecycle.InCheckAuth(t'.pc))
  {
    hide OnHello, OnBye, OnRoom, WriterPending;
    match s.threads[a.c].pc {
      case Hello(h) => HelloFlags(s, a.c, h);
      case InRoom(r) => RoomFlags(cfg, a.c, s.threads[a.c], s.rm, s.table, r, a.pick);
      case Bye(b) => ByeFlags(cfg, s, a.c, b, a.pick);
      case _ =>
    }
  }

  // What a step of the connection does to its flags.
  lemma OwnFlags(cfg: Config, s: State, a: Action)
    requires Enabled(cfg, s, a) && !a.Accept? && Consistent(s.threads[a.c])
    ensures var t, t' := s.threads[a.c], Apply(cfg, s, a).threads[a.c];
            && Consistent(t')
            && (t.failed.cast || t.failed.auth ==> t'.failed.cast || t'.failed.auth)
            && (t'.failed.cast || t'.failed.auth ==>
                  t.failed.cast || t.failed.auth || (a.Deliver? && !a.ok && After(t.pc)))
            && (a.Deliver? && !a.ok && After(t.pc) ==> t'.failed.cast || t'.failed.auth)
            && (!Lifecycle.InCheckAuth(t.pc) ==> !Lifecycle.InCheckAuth(t'.pc))
  {
    if a.Move? {
      hide Apply, Enabled, Consistent;
      MoveFlags(cfg, s, a);
    } else {
      hide OnHello, OnRoom, OnBye, OnCreate, OnLookup, SetAuth, First;
    }
  }

  lemma FreshFlags(cfg: Config, c: Cid)
    ensures Consistent(Fresh(cfg, c)) && !Fresh(cfg, c).failed.cast && !Fresh(cfg, c).failed.auth
  {
  }

  ghost predicate AllConsistent(s: State) {
    forall d :: d in s.threads ==> d <= s.nextId && Consistent(s.threads[d])
  }

  lemma StepConsistent(cfg: Config, s: State, a: Action, s': State)
    requires AllConsistent(s) && Enabled(cfg, s, a) && s' == Apply(cfg, s, a)
    ensures AllConsistent(s')
    ensures a.Accept? ==> s'.threads == s.threads[s'.nextId := Fresh(cfg, s'.nextId)] && s'.nextId == s.nextId + 1
  {
    assert a.Accept? ==> s'.threads == s.threads[s'.nextId := Fresh(cfg, s'.nextId)];
    hide Apply, Enabled, Consistent;
    Membership.StepThreads(cfg, s, a);
    if a.Accept? {
      FreshFlags(cfg, s.nextId + 1);
    } else {
      OwnFlags(cfg, s, a);
    }
  }

  // The flags go up with a failed send and never come down.
  lemma StepFlagged(cfg: Config, s: State, a: Action, s': State, c: Cid)
    requires AllConsistent(s) && Enabled(cfg, s, a) && s' == Apply(cfg, s, a)
    ensures Flagged(s', c) <==> Flagged(s, c) || FailedSend(cfg, s, s', c)
  {
    hide Apply, Enabled, Consistent;
    StepConsistent(cfg, s, a, s');
    Membership.StepThreads(cfg, s, a);
    if a.Accept? {
      FreshFlags(cfg, s.nextId + 1);
    } else {
      OwnFlags(cfg, s, a);
    }
    if a.Deliver? && a.c == c && !a.ok && After(s.threads[c].pc) {
      assert a == Deliver(c, a.x, false);
      assert FailedSend(cfg, s, s', c);
    }
    if FailedSend(cfg, s, s', c) {
      FailureFlags(cfg, s, s', c);
    }
  }

  lemma FailureFlags(cfg: Config, s: State, s': State, c: Cid)
    requires AllConsistent(s) && FailedSend(cfg, s, s', c)
    ensures Flagged(s', c)
  {
    hide Apply, Enabled, Consistent;
    var x :| Enabled(cfg, s, Deliver(c, x, false)) && s' == Apply(cfg, s, Deliver(c, x, false));
    Membership.StepThreads(cfg, s, Deliver(c, x, false));
    OwnFlags(cfg, s, Deliver(c, x, false));
  }

  // CheckAuth went well, and is over.
  predicate Clear(s: State, c: Cid) {
    c in s.threads && !Lifecycle.InCheckAuth(s.threads[c].pc) && !Flagged(s, c)
  }

  lemma StepClear(cfg: Config, s: State, a: Action, s': State, c: Cid)
    requires AllConsistent(s) && Enabled(cfg, s, a) && s' == Apply(cfg, s, a) && Clear(s, c)
    ensures Clear(s', c)
  {
    hide Apply, Enabled, Consistent;
    Membership.StepThreads(cfg, s, a);
    if Actor(s, a) == c {
      assert !a.Accept?;
      OwnFlags(cfg, s, a);
    }
  }

  // ---- Over a run --------------------------------------------------------------------------------------------------

  // Some step of the run is a failed send of CheckAuth after setAuth.
  ghost predicate SendFailed(cfg: Config, run: seq<State>, c: Cid) {
    exists i :: 0 < i < |run| && FailedSend(cfg, run[i - 1], run[i], c)
  }

  lemma {:induction false} RunFlagged(cfg: Config, run: seq<State>, c: Cid)
    requires IsRun(cfg, run)
    ensures var s := run[|run| - 1];
            AllConsistent(s) && (Flagged(s, c) <==> SendFailed(cfg, run, c))
  {
    hide Apply, Enabled, FailedSend;
    var n := |run| - 1;
    if n > 0 {
      var pre := run[..n];
      RunPrefix(cfg, run);
      RunFlagged(cfg, pre, c);
      var a :| Enabled(cfg, run[n - 1], a) && run[n] == Apply(cfg, run[n - 1], a);
      StepConsistent(cfg, run[n - 1], a, run[n]);
      StepFlagged(cfg, run[n - 1], a, run[n], c);
      if SendFailed(cfg, run, c) {
        var i :| 0 < i < |run| && FailedSend(cfg, run[i - 1], run[i], c);
        assert i < n ==> FailedSend(cfg, pre[i - 1], pre[i], c);
      }
      if SendFailed(cfg, pre, c) {
        var i :| 0 < i < |pre| && FailedSend(cfg, pre[i - 1], pre[i], c);
        assert FailedSend(cfg, run[i - 1], run[i], c);
      }
    }
  }

  // When the handler of a connection has returned, the connection is still in the ConnManager, and its user counts as
  // connected, exactly when after its setAuth a send of the list of users, of the announcement or of AuthPass failed.
  lemma LeakedIff(cfg: Config, run: seq<State>, c: Cid)
    requires IsRun(cfg, run)
    requires var s := run[|run| - 1]; c in s.threads && s.threads[c].pc.Done?
    ensures var m := run[|run| - 1].conns;
            && (c in m.clients <==> SendFailed(cfg, run, c))
            && ((exists u :: u in m.users && c in m.users[u]) <==> SendFailed(cfg, run, c))
  {
    var s := run[|run| - 1];
    RunFlagged(cfg, run, c);
    hide SendFailed, IsRun;
    assert Reachable(cfg, s) by { assert IsRun(cfg, run); }
    Lifecycle.CleanUp(cfg, s, c);
    hide Reachable;
    assert Consistent(s.threads[c]);
  }

  lemma {:induction false} StaysClear(cfg: Config, run: seq<State>, i: nat, c: Cid)
    requires IsRun(cfg, run) && i < |run| && Clear(run[i], c)
    ensures Clear(run[|run| - 1], c)
  {
    hide Apply, Enabled, Clear;
    var n := |run| - 1;
    if i < n {
      RunPrefix(cfg, run);
      StaysClear(cfg, run[..n], i, c);
      RunFlagged(cfg, run[..n], c);
      var a :| Enabled(cfg, run[n - 1], a) && run[n] == Apply(cfg, run[n - 1], a);
      StepClear(cfg, run[n - 1], a, run[n], c);
    }
  }

  // A connection that passed CheckAuth at some point of the run is in no map of the ConnManager when its handler has
  // returned.
  lemma PassedLeavesNothing(cfg: Config, run: seq<State>, i: nat, c: Cid)
    requires IsRun(cfg, run) && i < |run| && c in run[i].threads
    requires !Lifecycle.InCheckAuth(run[i].threads[c].pc) && !run[i].threads[c].pc.Done?
    requires var s := run[|run| - 1]; c in s.threads && s.threads[c].pc.Done?
    ensures var m := run[|run| - 1].conns;
            c !in m.clients && forall u :: u in m.users ==> c !in m.users[u]
  {
    PrefixRun(cfg, run, i);
    RunFlagged(cfg, run[..i + 1], c);
    StaysClear(cfg, run, i, c);
    RunFlagged(cfg, run, c);
    LeakedIff(cfg, run, c);
  }

  lemma PrefixRun(cfg: Config, run: seq<State>, i: nat)
    requires IsRun(cfg, run) && i < |run|
    ensures IsRun(cfg, run[..i + 1])
  {
    var pre := run[..i + 1];
    forall j | 0 < j < |pre|
      ensures Next(cfg, pre[j - 1], pre[j])
    {
      assert Next(cfg, run[j - 1], run[j]);
    }
  }

  // ---- What follows ------------------------------------------------------------------------------------------------

  // The connection is gone and still registered.
  predicate Leaked(s: State, c: Cid) {
    c in s.threads && s.threads[c].pc.Done? && c in s.conns.clients
  }

  lemma StillLeaked(cfg: Config, s: State, a: Action, c: Cid)
    requires Enabled(cfg, s, a) && Lifecycle.Inv(cfg, s) && Leaked(s, c)
    ensures var s' := Apply(cfg, s, a);
            && Actor(s, a) != c && Leaked(s', c)
            && s'.threads[c].user == s.threads[c].user == s'.conns.clients[c]
  {
    assert Actor(s, a) != c;
    Membership.StepThreads(cfg, s, a);
    Lifecycle.StepInv(cfg, s, a);
    hide Apply, Enabled;
    var s' := Apply(cfg, s, a);
    assert Lifecycle.Placed(cfg, s.table, s.conns, s.readers, c, s.threads[c]);
    assert Lifecycle.Placed(cfg, s'.table, s'.conns, s'.readers, c, s'.threads[c]);
  }

  // A leaked connection stays registered, under its user, to the end of every run.
  lemma {:induction false} LeakIsForever(cfg: Config, run: seq<State>, i: nat, c: Cid)
    requires IsRun(cfg, run) && i < |run| && Leaked(run[i], c)
    ensures var s := run[|run| - 1];
            Leaked(s, c) && s.conns.clients[c] == s.threads[c].user == run[i].threads[c].user
  {
    hide Apply, Enabled, Lifecycle.Inv;
    var n := |run| - 1;
    if i < n {
      RunPrefix(cfg, run);
      LeakIsForever(cfg, run[..n], i, c);
      Lifecycle.RunInv(cfg, run[..n]);
      var a :| Enabled(cfg, run[n - 1], a) && run[n] == Apply(cfg, run[n - 1], a);
      StillLeaked(cfg, run[n - 1], a, c);
    } else {
      Lifecycle.RunInv(cfg, run);
      LeakedUser(cfg, run[i], c);
    }
  }

  lemma LeakedUser(cfg: Config, s: State, c: Cid)
    requires Lifecycle.Inv(cfg, s) && Leaked(s, c)
    ensures s.conns.clients[c] == s.threads[c].user
  {
    assert Lifecycle.Placed(cfg, s.table, s.conns, s.readers, c, s.threads[c]);
  }

  // While a connection of u is leaked, no other connection of u is ever the first or the last one: u is announced by
  // nobody and withdrawn by nobody.
  lemma NeverFirstNorLast(cfg: Config, s: State, c: Cid, d: Cid)
    requires Reachable(cfg, s) && Leaked(s, c) && d in s.threads && c != d
    ensures var u := s.threads[c].user;
            Enabled(cfg, s, Login(d, u)) ==>
              Apply(cfg, s, Login(d, u)).threads[d].pc == Hello(AuthSnap(false))
    ensures s.threads[d].pc == Bye(Revoking) && s.threads[d].user == s.threads[c].user ==>
              forall pick :: Apply(cfg, s, Move(d, pick)).threads[d].pc == Done
  {
    Lifecycle.ReachableInv(cfg, s);
    hide Reachable;
    var u := s.threads[c].user;
    assert Lifecycle.Placed(cfg, s.table, s.conns, s.readers, c, s.threads[c]);
    assert Lifecycle.Placed(cfg, s.table, s.conns, s.readers, d, s.threads[d]);
    assert c in Of(s.conns, u);
    SecondIsNotFirst(s.conns, d, c, u);
  }

  lemma SecondIsNotFirst(m: Conns, c: Cid, d: Cid, u: User)
    requires d in Of(m, u) && d != c
    ensures !First(m, c, u)
  {
    var pair, all := {c, d}, Of(m, u) + {c};
    assert all == pair + (all - pair);
  }

  // The step is not a send to c that succeeds.
  ghost predicate DeadEnd(cfg: Config, s: State, s': State, c: Cid) {
    exists a :: Enabled(cfg, s, a) && s' == Apply(cfg, s, a) && !(a.Deliver? && a.ok && a.x.to == c)
  }

  // d has still to tell c about its user, or has failed.
  predicate Doomed(s: State, c: Cid, d: Cid) {
    && d in s.threads
    && (|| Flagged(s, d) || s.threads[d].pc == Hello(AuthCastSnap)
        || (s.threads[d].pc == Hello(AuthCast) && Send(c, AuthJoin(s.threads[d].user)) in s.threads[d].io.pending))
  }

  lemma AnnounceLeaked(cfg: Config, s: State, a: Action, c: Cid)
    requires Enabled(cfg, s, a) && a.Move? && s.threads[a.c].pc == Hello(AuthCastSnap)
    requires c in s.conns.clients && s.conns.clients[c] != s.threads[a.c].user
    ensures Doomed(Apply(cfg, s, a), c, a.c)
  {
    assert c in OtherClients(s.conns, s.threads[a.c].user);
    hide OtherClients, Fan;
  }

  lemma SentDoomed(cfg: Config, s: State, a: Action, c: Cid)
    requires Enabled(cfg, s, a) && a.Deliver? && s.threads[a.c].pc == Hello(AuthCast)
    requires !(a.ok && a.x.to == c) && Doomed(s, c, a.c)
    ensures Doomed(Apply(cfg, s, a), c, a.c)
  {
  }

  lemma StepDoomed(cfg: Config, s: State, a: Action, s': State, c: Cid, d: Cid)
    requires AllConsistent(s) && Lifecycle.Inv(cfg, s) && Enabled(cfg, s, a) && s' == Apply(cfg, s, a)
    requires !(a.Deliver? && a.ok && a.x.to == c)
    requires Leaked(s, c) && Doomed(s, c, d) && s.threads[d].user != s.threads[c].user
    ensures Doomed(s', c, d)
  {
    LeakedUser(cfg, s, c);
    StepFlagged(cfg, s, a, s', d);
    hide Lifecycle.Inv, FailedSend;
    if !Flagged(s, d) && Actor(s, a) == d && !a.Accept? {
      hide Doomed, Flagged, OnHello, OnSent;
      if a.Move? {
        AnnounceLeaked(cfg, s, a, c);
      } else {
        SentDoomed(cfg, s, a, c);
      }
    } else {
      hide Apply, Enabled;
      Membership.StepThreads(cfg, s, a);
    }
  }

  // The user a registered connection logged in with does not change.
  lemma SameUser(cfg: Config, s: State, a: Action, d: Cid)
    requires Enabled(cfg, s, a) && d in s.threads && d <= s.nextId && s.threads[d].pc != Hello(Credentials)
    ensures Apply(cfg, s, a).threads[d].user == s.threads[d].user
  {
    hide Fan, TellUsers, TellClients, TellRooms, TellMembers, SetAuth, RemoveAuth, AnyLeft, OtherClients, WriterPending;
    Membership.StepThreads(cfg, s, a);
  }

  lemma DoomedLoggedIn(s: State, c: Cid, d: Cid)
    requires AllConsistent(s) && Doomed(s, c, d)
    ensures d <= s.nextId && s.threads[d].pc != Hello(Credentials)
  {
  }

  // The leak spreads. Once c is leaked, and as long as no send to c succeeds, every first login d of another user that
  // gets as far as its announcement is on its way to fail, and is leaked as well when its handler has returned.
  lemma {:induction false} LeakSpreads(cfg: Config, run: seq<State>, i: nat, c: Cid, d: Cid)
    requires IsRun(cfg, run) && i < |run| && Leaked(run[i], c)
    requires d in run[i].threads && run[i].threads[d].pc == Hello(AuthCastSnap)
    requires run[i].threads[d].user != run[i].threads[c].user
    requires forall k :: i < k < |run| ==> DeadEnd(cfg, run[k - 1], run[k], c)
    ensures var s := run[|run| - 1];
            && Doomed(s, c, d) && s.threads[d].user == run[i].threads[d].user
            && (s.threads[d].pc.Done? ==> Leaked(s, d))
  {
    hide Apply, Enabled, Lifecycle.Inv, Flagged, AllConsistent;
    var n := |run| - 1;
    if i < n {
      RunPrefix(cfg, run);
      LeakSpreads(cfg, run[..n], i, c, d);
      LeakIsForever(cfg, run[..n], i, c);
      Lifecycle.RunInv(cfg, run[..n]);
      RunFlagged(cfg, run[..n], d);
      assert DeadEnd(cfg, run[n - 1], run[n], c);
      var a :|
        Enabled(cfg, run[n - 1], a) && run[n] == Apply(cfg, run[n - 1], a) && !(a.Deliver? && a.ok && a.x.to == c);
      StepDoomed(cfg, run[n - 1], a, run[n], c, d);
      DoomedLoggedIn(run[n - 1], c, d);
      SameUser(cfg, run[n - 1], a, d);
    }
    if run[n].threads[d].pc.Done? {
      RunFlagged(cfg, run, d);
      LeakedIff(cfg, run, d);
    }
  }
}
