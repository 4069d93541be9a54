// Broadcast of eddwise.go: one goroutine per receiver, a channel of capacity one for their errors, a goroutine
// that collects them, and two wait groups. Every shared access is one step and the steps interleave freely.
module Broadcast {
  import opened Common

  type Err = string

  // The program of one sending goroutine; `Reporting` is blocked while the channel is full.
  datatype Sender = NotStarted | Ready | Reporting(err: Err) | Finishing | Finished

  datatype Caller = Checking | Rejected | Spawning(next: nat) | Waiting | Closing | Collecting | Returned

  datatype Collector = Receiving | Appending(err: Err) | Quit

  // What the environment decides: the answer of CheckSendFields and of every send.
  datatype Call = Call(check: Option<Err>, answers: seq<Option<Err>>)

  datatype State = State(
    caller: Caller,
    senders: seq<Sender>,
    wg: int,
    errCh: seq<Err>,
    closed: bool,
    collector: Collector,
    wgErr: int,
    errs: seq<Err>,
    // history: how often every receiver was sent to, and whether anything was done that panics
    sends: seq<nat>,
    panicked: bool)

  datatype Action =
    | Check | Spawn | Wait | Close | Return
    | DoSend(i: nat) | Report(i: nat) | SenderDone(i: nat)
    | Receive | Append | CollectorDone

  function Init(call: Call): State {
    State(Checking, seq(|call.answers|, _ => NotStarted), 0, [], false, Receiving, 1, [],
          seq(|call.answers|, _ => 0), false)
  }

  predicate Enabled(s: State, a: Action) {
    match a
    case Check => s.caller.Checking?
    case Spawn => s.caller.Spawning?
    case Wait => s.caller.Waiting? && s.wg == 0
    case Close => s.caller.Closing?
    case Return => s.caller.Collecting? && s.wgErr == 0
    case DoSend(i) => i < |s.senders| && s.senders[i].Ready?
    case Report(i) => i < |s.senders| && s.senders[i].Reporting? && |s.errCh| < 1
    case SenderDone(i) => i < |s.senders| && s.senders[i].Finishing?
    case Receive => s.collector.Receiving? && s.errCh != []
    case Append => s.collector.Appending?
    case CollectorDone => s.collector.Receiving? && s.errCh == [] && s.closed
  }

  function Apply(call: Call, s: State, a: Action): State
    requires Enabled(s, a)
  {
    match a
    case Check => s.(caller := if call.check.Some? then Rejected else Spawning(0))
    case Spawn =>
      var k := s.caller.next;
      if k < |s.senders| then s.(caller := Spawning(k + 1), wg := s.wg + 1, senders := s.senders[k := Ready])
      else s.(caller := Waiting)
    case Wait => s.(caller := Closing)
    case Close => s.(caller := Collecting, closed := true, panicked := s.panicked || s.closed)
    case Return => s.(caller := Returned)
    case DoSend(i) =>
      var pc := if i < |call.answers| && call.answers[i].Some? then Reporting(call.answers[i].value) else Finishing;
      s.(senders := s.senders[i := pc],
         sends := if i < |s.sends| then s.sends[i := s.sends[i] + 1] else s.sends)
    case Report(i) =>
      s.(senders := s.senders[i := Finishing], errCh := s.errCh + [s.senders[i].err],
        panicked := s.panicked || s.closed)
    case SenderDone(i) =>
      s.(senders := s.senders[i := Finished], wg := s.wg - 1, panicked := s.panicked || s.wg <= 0)
    case Receive => s.(collector := Appending(s.errCh[0]), errCh := s.errCh[1..])
    case Append => s.(collector := Receiving, errs := s.errs + [s.collector.err])
    case CollectorDone => s.(collector := Quit, wgErr := s.wgErr - 1)
  }

  // The value returned: nil, or the errors the message lists.
  function Result(call: Call, s: State): Option<seq<Err>>
    requires s.caller.Rejected? ==> call.check.Some?
  {
    if s.caller.Rejected? then Some([call.check.value]) else if s.errs == [] then None else Some(s.errs)
  }

  ghost predicate IsRun(call: Call, run: seq<State>) {
    && |run| > 0 && run[0] == Init(call)
    && forall i :: 0 < i < |run| ==> Next(call, run[i - 1], run[i])
  }

  ghost predicate Next(call: Call, s: State, s': State) {
    exists a :: Enabled(s, a) && s' == Apply(call, s, a)
  }

  // ---- Counting over the senders ---------------------------------------------------------------------------

  predicate Active(p: Sender) {
    p.Ready? || p.Reporting? || p.Finishing?
  }

  function ActiveCount(ps: seq<Sender>): nat {
    if ps == [] then 0 else ActiveCount(ps[..|ps| - 1]) + if Active(ps[|ps| - 1]) then 1 else 0
  }

  // The errors among the answers of the senders that have put theirs into the channel.
  function Reported(answers: seq<Option<Err>>, ps: seq<Sender>): multiset<Err>
    requires |answers| == |ps|
  {
    if ps == [] then multiset{} else
    var n := |ps| - 1;
    Reported(answers[..n], ps[..n])
    + if answers[n].Some? && (ps[n].Finishing? || ps[n].Finished?) then multiset{answers[n].value} else multiset{}
  }

  function Failures(answers: seq<Option<Err>>): multiset<Err> {
    if answers == [] then multiset{} else
    var n := |answers| - 1;
    Failures(answers[..n]) + if answers[n].Some? then multiset{answers[n].value} else multiset{}
  }

  function Weight(p: Sender): nat {
    match p
    case NotStarted => 6
    case Ready => 5
    case Reporting(_) => 4
    case Finishing => 1
    case Finished => 0
  }

  function Weights(ps: seq<Sender>): nat {
    if ps == [] then 0 else Weights(ps[..|ps| - 1]) + Weight(ps[|ps| - 1])
  }

  lemma {:induction false} UpdateCounts(answers: seq<Option<Err>>, ps: seq<Sender>, i: nat, p: Sender)
    requires i < |ps| == |answers|
    ensures ActiveCount(ps[i := p]) ==
            ActiveCount(ps) - (if Active(ps[i]) then 1 else 0) + (if Active(p) then 1 else 0)
    ensures Weights(ps[i := p]) == Weights(ps) - Weight(ps[i]) + Weight(p)
    ensures var before := ps[i].Finishing? || ps[i].Finished?;
            var now := p.Finishing? || p.Finished?;
            (before ==> now) ==>
              Reported(answers, ps[i := p]) ==
              Reported(answers, ps)
              + if now && !before && answers[i].Some? then multiset{answers[i].value} else multiset{}
  {
    var n := |ps| - 1;
    if i < n {
      assert ps[i := p][..n] == ps[..n][i := p];
      UpdateCounts(answers[..n], ps[..n], i, p);
    } else {
      assert ps[i := p][..n] == ps[..n];
    }
  }

  // Some goroutine that has been started and has not finished.
  function ActiveIndex(ps: seq<Sender>): (i: nat)
    requires ActiveCount(ps) > 0
    ensures i < |ps| && Active(ps[i])
  {
    if Active(ps[|ps| - 1]) then |ps| - 1 else ActiveIndex(ps[..|ps| - 1])
  }

  lemma {:induction false} NoneActive(ps: seq<Sender>, i: nat)
    requires ActiveCount(ps) == 0 && i < |ps|
    ensures !Active(ps[i])
  {
    if i < |ps| - 1 {
      NoneActive(ps[..|ps| - 1], i);
    }
  }

  lemma {:induction false} InitCounts(answers: seq<Option<Err>>, n: nat)
    requires n == |answers|
    ensures var ps := seq(n, _ => NotStarted);
            ActiveCount(ps) == 0 && Reported(answers, ps) == multiset{} && Weights(ps) == 6 * n
  {
    if n > 0 {
      assert seq(n, _ => NotStarted)[..n - 1] == seq(n - 1, _ => NotStarted);
      InitCounts(answers[..n - 1], n - 1);
    }
  }

  lemma {:induction false} AllReported(answers: seq<Option<Err>>, ps: seq<Sender>)
    requires |answers| == |ps| && forall i :: 0 <= i < |ps| ==> ps[i].Finished?
    ensures Reported(answers, ps) == Failures(answers)
  {
    if ps != [] {
      AllReported(answers[..|ps| - 1], ps[..|ps| - 1]);
    }
  }

  // ---- The invariant -----------------------------------------------------------------------------------------

  predicate SenderOk(call: Call, s: State, i: nat)
    requires i < |s.senders| == |s.sends| == |call.answers|
  {
    && (s.senders[i].NotStarted? <==>
          s.caller.Checking? || s.caller.Rejected? || (s.caller.Spawning? && i >= s.caller.next))
    && s.sends[i] == (if s.senders[i].NotStarted? || s.senders[i].Ready? then 0 else 1)
    && (s.senders[i].Reporting? ==> call.answers[i] == Some(s.senders[i].err))
    && (s.caller.Closing? || s.closed ==> s.senders[i].Finished?)
  }

  // The errors still on their way: in the channel, or in the collector's hands.
  function OnTheWay(s: State): multiset<Err> {
    multiset(s.errCh) + if s.collector.Appending? then multiset{s.collector.err} else multiset{}
  }

  ghost predicate Inv(call: Call, s: State) {
    && !s.panicked
    && |s.senders| == |s.sends| == |call.answers|
    && (forall i :: 0 <= i < |s.senders| ==> SenderOk(call, s, i))
    && s.wg == ActiveCount(s.senders)
    && (s.caller.Spawning? ==> s.caller.next <= |s.senders|)
    && (s.caller.Rejected? ==> call.check.Some?)
    && (s.caller.Checking? || s.caller.Rejected? || call.check.None?)
    && (s.closed <==> s.caller.Collecting? || s.caller.Returned?)
    && |s.errCh| <= 1
    && multiset(s.errs) + OnTheWay(s) == Reported(call.answers, s.senders)
    && s.wgErr == (if s.collector.Quit? then 0 else 1)
    && (s.collector.Quit? ==> s.closed && s.errCh == [])
    && (s.caller.Returned? ==> s.collector.Quit?)
  }

  // Strictly decreasing along every step, so every schedule ends.
  function Measure(s: State): nat {
    Weights(s.senders) + 2 * |s.errCh|
    + (if s.collector.Appending? then 1 else 0) + (if s.collector.Quit? then 0 else 1)
    + match s.caller
      case Checking => 6
      case Spawning(_) => 5
      case Waiting => 3
      case Closing => 2
      case Collecting => 1
      case _ => 0
  }

  lemma CallerStep(call: Call, s: State, a: Action)
    requires Inv(call, s) && Enabled(s, a)
    requires a.Check? || a.Spawn? || a.Wait? || a.Close? || a.Return?
    ensures Inv(call, Apply(call, s, a)) && Measure(Apply(call, s, a)) < Measure(s)
  {
    var s' := Apply(call, s, a);
    if a.Spawn? && s.caller.next < |s.senders| {
      assert SenderOk(call, s, s.caller.next);
      UpdateCounts(call.answers, s.senders, s.caller.next, Ready);
    }
    forall i | 0 <= i < |s.senders|
      ensures SenderOk(call, s', i)
    {
      assert SenderOk(call, s, i);
      if a.Wait? {
        NoneActive(s.senders, i);
      }
    }
  }

  lemma SendStep(call: Call, s: State, a: Action)
    requires Inv(call, s) && Enabled(s, a) && a.DoSend?
    ensures Inv(call, Apply(call, s, a)) && Measure(Apply(call, s, a)) < Measure(s)
  {
    var s' := Apply(call, s, a);
    assert SenderOk(call, s, a.i);
    UpdateCounts(call.answers, s.senders, a.i, s'.senders[a.i]);
    ActiveWithin(s.senders, a.i);
    SenderStepOk(call, s, a);
    hide ActiveCount, Weights, Reported, SenderOk, OnTheWay;
  }

  lemma ReportStep(call: Call, s: State, a: Action)
    requires Inv(call, s) && Enabled(s, a) && a.Report?
    ensures Inv(call, Apply(call, s, a)) && Measure(Apply(call, s, a)) < Measure(s)
  {
    var s' := Apply(call, s, a);
    assert SenderOk(call, s, a.i);
    UpdateCounts(call.answers, s.senders, a.i, s'.senders[a.i]);
    ActiveWithin(s.senders, a.i);
    SenderStepOk(call, s, a);
    ReportBalance(call, s, a.i);
    hide ActiveCount, Weights, Reported, SenderOk, OnTheWay;
  }

  lemma DoneStep(call: Call, s: State, a: Action)
    requires Inv(call, s) && Enabled(s, a) && a.SenderDone?
    ensures Inv(call, Apply(call, s, a)) && Measure(Apply(call, s, a)) < Measure(s)
  {
    var s' := Apply(call, s, a);
    assert SenderOk(call, s, a.i);
    UpdateCounts(call.answers, s.senders, a.i, s'.senders[a.i]);
    ActiveWithin(s.senders, a.i);
    SenderStepOk(call, s, a);
    hide ActiveCount, Weights, Reported, SenderOk, OnTheWay;
  }

  // Reporting moves an error from the sender to the channel, receiving and appending move it on.
  lemma ReportBalance(call: Call, s: State, i: nat)
    requires Enabled(s, Report(i))
    ensures OnTheWay(Apply(call, s, Report(i))) == OnTheWay(s) + multiset{s.senders[i].err}
  {
    assert s.errCh == [];
    assert multiset(Apply(call, s, Report(i)).errCh) == multiset{s.senders[i].err};
  }

  lemma CollectorBalance(call: Call, s: State, a: Action)
    requires Enabled(s, a) && (a.Receive? || a.Append? || a.CollectorDone?) && |s.errCh| <= 1
    ensures var s' := Apply(call, s, a);
            multiset(s'.errs) + OnTheWay(s') == multiset(s.errs) + OnTheWay(s)
  {
    if a.Receive? {
      assert s.errCh == [s.errCh[0]];
      assert Apply(call, s, a).errCh == [];
    }
  }

  lemma SenderStepOk(call: Call, s: State, a: Action)
    requires Inv(call, s) && Enabled(s, a)
    requires a.DoSend? || a.Report? || a.SenderDone?
    ensures var s' := Apply(call, s, a);
            && |s'.senders| == |s'.sends| == |call.answers|
            && forall i :: 0 <= i < |s'.senders| ==> SenderOk(call, s', i)
  {
    hide ActiveCount, Reported;
    var s' := Apply(call, s, a);
    forall i | 0 <= i < |s.senders|
      ensures SenderOk(call, s', i)
    {
      assert SenderOk(call, s, i);
    }
  }

  lemma {:induction false} ActiveWithin(ps: seq<Sender>, i: nat)
    requires i < |ps| && Active(ps[i])
    ensures ActiveCount(ps) > 0
  {
    if i < |ps| - 1 {
      ActiveWithin(ps[..|ps| - 1], i);
    }
  }

  lemma CollectorStep(call: Call, s: State, a: Action)
    requires Inv(call, s) && Enabled(s, a)
    requires a.Receive? || a.Append? || a.CollectorDone?
    ensures Inv(call, Apply(call, s, a)) && Measure(Apply(call, s, a)) < Measure(s)
  {
    var s' := Apply(call, s, a);
    forall i | 0 <= i < |s.senders|
      ensures SenderOk(call, s', i)
    {
      assert SenderOk(call, s, i);
    }
    CollectorBalance(call, s, a);
    hide ActiveCount, Weights, Reported, SenderOk, OnTheWay;
  }

  lemma InitInv(call: Call)
    ensures Inv(call, Init(call)) && Measure(Init(call)) == 6 * |call.answers| + 7
  {
    InitCounts(call.answers, |call.answers|);
    var s := Init(call);
    assert s.senders == seq(|call.answers|, _ => NotStarted);
  }

  lemma {:induction false} RunInv(call: Call, run: seq<State>)
    requires IsRun(call, run)
    ensures Inv(call, run[|run| - 1])
    ensures |run| - 1 + Measure(run[|run| - 1]) <= 6 * |call.answers| + 7
  {
    hide Inv, Measure, Apply, Enabled;
    if |run| == 1 {
      InitInv(call);
    } else {
      var n := |run| - 1;
      assert Next(call, run[n - 1], run[n]);
      RunInv(call, run[..n]);
      var a :| Enabled(run[n - 1], a) && run[n] == Apply(call, run[n - 1], a);
      if a.DoSend? {
        SendStep(call, run[n - 1], a);
      } else if a.Report? {
        ReportStep(call, run[n - 1], a);
      } else if a.SenderDone? {
        DoneStep(call, run[n - 1], a);
      } else if a.Receive? || a.Append? || a.CollectorDone? {
        CollectorStep(call, run[n - 1], a);
      } else {
        CallerStep(call, run[n - 1], a);
      }
    }
  }

  // ---- What every schedule guarantees --------------------------------------------------------------------------

  ghost predicate Final(s: State) {
    s.caller.Returned? || s.caller.Rejected?
  }

  // Nothing is sent on the closed channel, the channel is closed once, the wait group never goes below zero, and
  // nobody is sent to more than once.
  lemma NeverPanics(call: Call, run: seq<State>)
    requires IsRun(call, run)
    ensures var s := run[|run| - 1];
            && !s.panicked && |s.errCh| <= 1
            && |s.sends| == |call.answers| && forall i :: 0 <= i < |s.sends| ==> s.sends[i] <= 1
  {
    RunInv(call, run);
    var s := run[|run| - 1];
    forall i | 0 <= i < |s.sends|
      ensures s.sends[i] <= 1
    {
      assert SenderOk(call, s, i);
    }
  }

  ghost predicate CanStep(s: State) {
    exists a: Action :: Enabled(s, a)
  }

  // No deadlock: until the call returns, some goroutine can move.
  lemma NoDeadlock(call: Call, run: seq<State>)
    requires IsRun(call, run) && !Final(run[|run| - 1])
    ensures CanStep(run[|run| - 1])
  {
    RunInv(call, run);
    var s := run[|run| - 1];
    var a :=
      match s.caller
      case Checking => Check
      case Spawning(_) => Spawn
      case Waiting =>
        if s.wg == 0 then Wait else
        var i := ActiveIndex(s.senders);
        (match s.senders[i]
         case Ready => DoSend(i)
         case Finishing => SenderDone(i)
         case _ => if s.errCh == [] then Report(i) else if s.collector.Appending? then Append else Receive)
      case Closing => Close
      case _ =>
        if s.collector.Quit? then Return else if s.collector.Appending? then Append
        else if s.errCh != [] then Receive else CollectorDone;
    assert Enabled(s, a);
  }

  // No schedule is longer than this, so with NoDeadlock every schedule ends in a return.
  lemma EveryScheduleEnds(call: Call, run: seq<State>)
    requires IsRun(call, run)
    ensures |run| <= 6 * |call.answers| + 8
  {
    RunInv(call, run);
  }

  // The outcome, whatever the schedule: every receiver was sent to exactly once unless the field check failed,
  // the collected errors are exactly the answers of the failing sends, and the result is nil exactly when none
  // failed.
  lemma Outcome(call: Call, run: seq<State>)
    requires IsRun(call, run) && Final(run[|run| - 1])
    ensures var s := run[|run| - 1];
            && (s.caller.Rejected? <==> call.check.Some?)
            && |s.sends| == |call.answers|
            && (forall i :: 0 <= i < |s.sends| ==> s.sends[i] == if call.check.Some? then 0 else 1)
            && (call.check.None? ==> multiset(s.errs) == Failures(call.answers))
            && (Result(call, s).None? <==>
                call.check.None? && forall i :: 0 <= i < |call.answers| ==> call.answers[i].None?)
  {
    RunInv(call, run);
    var s := run[|run| - 1];
    forall i | 0 <= i < |s.sends|
      ensures s.sends[i] == (if call.check.Some? then 0 else 1) && (s.caller.Returned? ==> s.senders[i].Finished?)
    {
      assert SenderOk(call, s, i);
    }
    if s.caller.Returned? {
      AllReported(call.answers, s.senders);
      assert multiset(s.errs) == Failures(call.answers);
      FailuresEmpty(call.answers);
      assert s.errs == [] <==> multiset(s.errs) == multiset{};
    }
  }

  lemma {:induction false} FailuresEmpty(answers: seq<Option<Err>>)
    ensures Failures(answers) == multiset{} <==> forall i :: 0 <= i < |answers| ==> answers[i].None?
  {
    if answers != [] {
      var n := |answers| - 1;
      FailuresEmpty(answers[..n]);
      if answers[n].Some? {
        assert answers[n].value in Failures(answers);
      } else {
        assert forall i :: 0 <= i < n ==> answers[i] == answers[..n][i];
      }
    }
  }
}
