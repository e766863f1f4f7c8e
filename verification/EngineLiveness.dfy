/** Every run is bounded, stops promptly when cancelled, and can be finished. */
module EngineLiveness {
  import opened Prelude
  import opened Records
  import opened Update
  import opened Transaction
  import opened Engine
  import opened EngineTickets
  import EngineOrder
  import Stats

  /** Messages of one undisturbed transaction. */
  function LegCount(c: Config): nat {
    |Legs(c.shape)|
  }

  /** Effective task steps of a schedule; the network, the collector and the
      cancel timer do not count. */
  function TaskSteps(c: Config, s: State, acts: seq<Action>): nat {
    if acts == [] then 0
    else TaskSteps(c, s, acts[..|acts| - 1]) + TaskStep(c, After(c, s, acts[..|acts| - 1]), acts[|acts| - 1])
  }

  function TaskStep(c: Config, s: State, a: Action): nat {
    if Enabled(c, s, a) && TaskOf(a).Some? then 1 else 0
  }

  lemma LegsShrink(c: Config, leg: Leg)
    ensures |LegsFrom(c.shape, leg)| >= 1
    ensures NextLeg(c.shape, leg).Some? ==>
      |LegsFrom(c.shape, NextLeg(c.shape, leg).value)| + 1 == |LegsFrom(c.shape, leg)|
  {
  }

  // ── Every run is bounded ─────────────────────────────────────────────────

  /** Steps a task can still take before it next checks the cancel flag and
      runs out of tickets. */
  function StepsLeft(c: Config, pc: Pc): nat {
    match pc
    case Exited => 0
    case GivingBack => 1
    case Claiming => 2
    case Checking => 3
    case Reporting(_) => 4
    case Sending(_, leg) => 4 + |LegsFrom(c.shape, leg)|
    case Connecting(_) => 5 + LegCount(c)
    case Claimed => 6 + LegCount(c)
  }

  function StepsLeftOf(c: Config): Pc -> nat {
    (pc: Pc) => StepsLeft(c, pc)
  }

  /** The measure: a full round for every ticket that can still be granted,
      plus what the tasks have left. */
  function Budget(c: Config, s: State): nat
    requires s.accepted <= MaxGranted(c)
  {
    (5 + LegCount(c)) * (MaxGranted(c) - s.accepted) + Sum(s.tasks, StepsLeftOf(c))
  }

  lemma TaskUsesStep(c: Config, s: State, a: Action)
    requires Enabled(c, s, a) && TaskOf(a).Some?
    ensures var pc, pc' := s.tasks[TaskOf(a).value], Step(c, s, a).tasks[TaskOf(a).value];
      if Step(c, s, a).accepted == s.accepted then StepsLeft(c, pc') + 1 <= StepsLeft(c, pc)
      else Step(c, s, a).accepted == s.accepted + 1 && StepsLeft(c, pc') + 1 <= StepsLeft(c, pc) + (5 + LegCount(c))
  {
    if a.Exchange? {
      LegsShrink(c, s.tasks[a.t].leg);
    }
    hide ZoneAfter, LateAfter, MakeRecord, Apply, LegsFrom;
  }

  lemma BudgetStep(c: Config, s: State, a: Action)
    requires s.accepted <= MaxGranted(c) && Try(c, s, a).accepted <= MaxGranted(c)
    ensures Budget(c, Try(c, s, a)) + TaskStep(c, s, a) <= Budget(c, s)
  {
    hide Sum, StepsLeft, MaxGranted, Step, Enabled, LegCount;
    if Enabled(c, s, a) {
      OneTaskMoves(c, s, a);
      if TaskOf(a).Some? {
        var t, s' := TaskOf(a).value, Step(c, s, a);
        TaskUsesStep(c, s, a);
        SumUpdate(s.tasks, t, s'.tasks[t], StepsLeftOf(c));
        var k := 5 + LegCount(c);
        if s'.accepted == s.accepted + 1 {
          MulSucc(k, MaxGranted(c) - s'.accepted);
        }
      }
    }
  }

  lemma {:induction false} BudgetSpent(c: Config, zone: Zone, counter: u64, acts: seq<Action>)
    ensures After(c, Init(c, zone, counter), acts).accepted <= MaxGranted(c)
    ensures Budget(c, After(c, Init(c, zone, counter), acts)) + TaskSteps(c, Init(c, zone, counter), acts)
      <= Budget(c, Init(c, zone, counter))
  {
    GrantsBounded(c, zone, counter, acts);
    if acts != [] {
      var n := |acts| - 1;
      BudgetSpent(c, zone, counter, acts[..n]);
      hide Budget, Try, Init;
      BudgetStep(c, After(c, Init(c, zone, counter), acts[..n]), acts[n]);
    }
  }

  /** Bounded runs: whatever the limit, the pool size, the scheduler and the
      server, the tasks take at most one round per ticket that can be granted
      and three steps each to leave. */
  lemma TaskStepsBounded(c: Config, zone: Zone, counter: u64, acts: seq<Action>)
    ensures TaskSteps(c, Init(c, zone, counter), acts) <= (5 + LegCount(c)) * MaxGranted(c) + 3 * c.concurrency
  {
    BudgetSpent(c, zone, counter, acts);
    SumBound(Init(c, zone, counter).tasks, StepsLeftOf(c), 3);
  }

  // ── After a cancel ───────────────────────────────────────────────────────

  function StepsToExit(c: Config, pc: Pc): nat {
    match pc
    case Exited => 0
    case GivingBack => 1
    case Checking => 1
    case Reporting(_) => 2
    case Sending(_, leg) => 2 + |LegsFrom(c.shape, leg)|
    case Connecting(_) => 3 + LegCount(c)
    case Claimed => 4 + LegCount(c)
    case Claiming => 5 + LegCount(c)
  }

  function StepsToExitOf(c: Config): Pc -> nat {
    (pc: Pc) => StepsToExit(c, pc)
  }

  /** Past its cancel check and before its outcome is sent. */
  function InRound(pc: Pc): nat {
    if pc.Claiming? || pc.Claimed? || pc.Connecting? || pc.Sending? || pc.Reporting? then 1 else 0
  }

  function Produced(s: State): nat {
    |s.channel| + |s.received|
  }

  lemma CancelledTaskMoves(c: Config, s: State, a: Action)
    requires s.cancel && Enabled(c, s, a)
    ensures Step(c, s, a).cancel
    ensures TaskOf(a).Some? ==>
      var pc, pc' := s.tasks[TaskOf(a).value], Step(c, s, a).tasks[TaskOf(a).value];
      && StepsToExit(c, pc') + 1 <= StepsToExit(c, pc)
      && Produced(Step(c, s, a)) + InRound(pc') <= Produced(s) + InRound(pc)
    ensures TaskOf(a).None? ==> Produced(Step(c, s, a)) == Produced(s)
  {
    if a.Exchange? {
      LegsShrink(c, s.tasks[a.t].leg);
    }
    hide ZoneAfter, LateAfter, MakeRecord, Apply, LegsFrom;
  }

  lemma {:induction false} CancelledBudget(c: Config, s0: State, acts: seq<Action>)
    requires s0.cancel
    ensures var s := After(c, s0, acts);
      && s.cancel && |s.tasks| == |s0.tasks|
      && TaskSteps(c, s0, acts) + Sum(s.tasks, StepsToExitOf(c)) <= Sum(s0.tasks, StepsToExitOf(c))
      && Produced(s) + Sum(s.tasks, InRound) <= Produced(s0) + Sum(s0.tasks, InRound)
  {
    hide Sum;
    if acts != [] {
      var n := |acts| - 1;
      var a := acts[n];
      CancelledBudget(c, s0, acts[..n]);
      var s := After(c, s0, acts[..n]);
      if Enabled(c, s, a) {
        OneTaskMoves(c, s, a);
        CancelledTaskMoves(c, s, a);
        hide Step, StepsToExit, InRound, Produced;
        if TaskOf(a).Some? {
          var t, pc' := TaskOf(a).value, Step(c, s, a).tasks[TaskOf(a).value];
          SumUpdate(s.tasks, t, pc', StepsToExitOf(c));
          SumUpdate(s.tasks, t, pc', InRound);
        }
      }
    }
  }

  lemma StepsToExitBound(c: Config, pc: Pc)
    ensures StepsToExit(c, pc) <= 5 + LegCount(c)
  {
    if pc.Sending? {
      match pc.leg {
        case AddA =>
        case AddPtr =>
          assert |LegsFrom(c.shape, AddPtr)| <= 3;
        case DelPtr =>
        case DelA =>
      }
    }
  }

  /** From any state in which the cancel flag is up, the tasks push at most one
      more outcome each, and take at most one more round each in all. */
  lemma CancelStopsPromptly(c: Config, s: State, acts: seq<Action>)
    requires s.cancel
    ensures Produced(After(c, s, acts)) <= Produced(s) + |s.tasks|
    ensures TaskSteps(c, s, acts) <= (5 + LegCount(c)) * |s.tasks|
  {
    CancelledBudget(c, s, acts);
    SumBound(s.tasks, InRound, 1);
    forall pc
      ensures StepsToExit(c, pc) <= 5 + LegCount(c)
    {
      StepsToExitBound(c, pc);
    }
    SumBound(s.tasks, StepsToExitOf(c), 5 + LegCount(c));
  }

  // ── No deadlock ──────────────────────────────────────────────────────────

  /** What a task that has not exited could do next, its server being honest. */
  function NextAction(zone: Zone, t: nat, pc: Pc): Action
    requires !pc.Exited?
  {
    match pc
    case Checking => CheckCancel(t)
    case Claiming => FetchAdd(t)
    case GivingBack => GiveBack(t)
    case Claimed => Draw(t, 0)
    case Connecting(_) => Connect(t, None)
    case Sending(rec, leg) => Exchange(t, Honest(zone, MessageOf(rec, leg)))
    case Reporting(_) => Report(t, 0)
  }

  /** Until the run is finished some step other than a cancel is enabled, one
      that a conforming server and a network without faults allow. */
  lemma SomeStep(c: Config, s: State) returns (a: Action)
    requires c.generator.hosts != [] && !Finished(s)
    ensures Enabled(c, s, a) && StepConforms(c, s, a) && EngineOrder.StepFaultFree(c, s, a)
    ensures a == Receive || TaskOf(a).Some?
  {
    if AllExited(s) {
      a := Receive;
    } else {
      var t :| 0 <= t < |s.tasks| && !s.tasks[t].Exited?;
      a := NextAction(s.zone, t, s.tasks[t]);
    }
  }

  lemma OneMore(c: Config, s0: State, acts: seq<Action>, a: Action)
    ensures TaskSteps(c, s0, acts + [a]) == TaskSteps(c, s0, acts) + TaskStep(c, After(c, s0, acts), a)
    ensures After(c, s0, acts + [a]) == Try(c, After(c, s0, acts), a)
    ensures Conforming(c, s0, acts) && StepConforms(c, After(c, s0, acts), a) ==> Conforming(c, s0, acts + [a])
    ensures EngineOrder.FaultFree(c, s0, acts) && EngineOrder.StepFaultFree(c, After(c, s0, acts), a) ==>
      EngineOrder.FaultFree(c, s0, acts + [a])
  {
    assert (acts + [a])[..|acts|] == acts;
  }

  lemma OnlyCancelRaises(c: Config, s: State, a: Action)
    requires Enabled(c, s, a) && (a == Receive || TaskOf(a).Some?)
    ensures Step(c, s, a).cancel == s.cancel
    ensures a == Receive ==> |Step(c, s, a).channel| < |s.channel|
  {
    hide ZoneAfter, LateAfter, Advance, MakeRecord, Apply;
  }

  /** No deadlock, with or without a cancel and whatever limit and pool size:
      from every reachable state the run can still be joined and collected,
      with no further fault, refusal or cancel. */
  lemma {:induction false} CanFinish(c: Config, zone: Zone, counter: u64, acts: seq<Action>)
    returns (more: seq<Action>)
    requires c.generator.hosts != []
    ensures var s0 := Init(c, zone, counter);
      && Finished(After(c, s0, acts + more))
      && After(c, s0, acts + more).cancel == After(c, s0, acts).cancel
      && (Conforming(c, s0, acts) ==> Conforming(c, s0, acts + more))
      && (EngineOrder.FaultFree(c, s0, acts) ==> EngineOrder.FaultFree(c, s0, acts + more))
    decreases
      Budget(c, Init(c, zone, counter)) - TaskSteps(c, Init(c, zone, counter), acts),
      |After(c, Init(c, zone, counter), acts).channel|
  {
    var s0 := Init(c, zone, counter);
    var s := After(c, s0, acts);
    BudgetSpent(c, zone, counter, acts);
    if Finished(s) {
      more := [];
      assert acts + more == acts;
    } else {
      var a := SomeStep(c, s);
      OneMore(c, s0, acts, a);
      OnlyCancelRaises(c, s, a);
      BudgetSpent(c, zone, counter, acts + [a]);
      hide After, Step, Init, Budget, TaskSteps, Conforming, Finished, StepConforms,
        EngineOrder.FaultFree, EngineOrder.StepFaultFree;
      var rest := CanFinish(c, zone, counter, acts + [a]);
      more := [a] + rest;
      assert acts + [a] + rest == acts + more;
    }
  }

  /** Every fault-free prefix of a run against a conforming server, cancelled
      or not, can be completed to a good run. */
  lemma GoodRunsExist(c: Config, zone: Zone, counter: u64, acts: seq<Action>) returns (more: seq<Action>)
    requires c.generator.hosts != []
    requires Conforming(c, Init(c, zone, counter), acts) && EngineOrder.FaultFree(c, Init(c, zone, counter), acts)
    ensures EngineOrder.GoodRun(c, zone, counter, acts + more)
    ensures After(c, Init(c, zone, counter), acts + more).cancel == After(c, Init(c, zone, counter), acts).cancel
  {
    more := CanFinish(c, zone, counter, acts);
  }

  /** A cancelled pool, reachable or not and whatever its limit and size, can
      always be joined and collected. */
  lemma {:induction false} CancelledCanFinish(c: Config, s: State) returns (more: seq<Action>)
    requires s.cancel && c.generator.hosts != []
    ensures Finished(After(c, s, more))
    decreases Sum(s.tasks, StepsToExitOf(c)), |s.channel|
  {
    if Finished(s) {
      more := [];
    } else {
      var a := SomeStep(c, s);
      var s' := Step(c, s, a);
      OneTaskMoves(c, s, a);
      CancelledTaskMoves(c, s, a);
      OnlyCancelRaises(c, s, a);
      assert After(c, s, [a]) == s' by { AfterSnoc(c, s, [], a); }
      hide After, Step, Finished, StepsToExit, Sum;
      if TaskOf(a).Some? {
        SumUpdate(s.tasks, TaskOf(a).value, s'.tasks[TaskOf(a).value], StepsToExitOf(c));
      }
      var rest := CancelledCanFinish(c, s');
      more := [a] + rest;
      AfterConcat(c, s, [a], rest);
    }
  }

  // ── Messages on the wire ─────────────────────────────────────────────────

  function Exchanges(c: Config, s: State, acts: seq<Action>): nat {
    if acts == [] then 0
    else
      var s', a := After(c, s, acts[..|acts| - 1]), acts[|acts| - 1];
      Exchanges(c, s, acts[..|acts| - 1]) + (if a.Exchange? && Enabled(c, s', a) then 1 else 0)
  }

  function LegsLeft(c: Config, pc: Pc): nat {
    match pc
    case Claimed => LegCount(c)
    case Connecting(_) => LegCount(c)
    case Sending(_, leg) => |LegsFrom(c.shape, leg)|
    case _ => 0
  }

  function LegsLeftOf(c: Config): Pc -> nat {
    (pc: Pc) => LegsLeft(c, pc)
  }

  lemma MessageAccounted(c: Config, s: State, a: Action)
    requires Enabled(c, s, a) && EngineOrder.StepFaultFree(c, s, a) && TaskOf(a).Some?
    ensures var pc, pc' := s.tasks[TaskOf(a).value], Step(c, s, a).tasks[TaskOf(a).value];
      var spent := LegsLeft(c, pc') + (if a.Exchange? then 1 else 0);
      if Step(c, s, a).accepted == s.accepted then spent == LegsLeft(c, pc)
      else Step(c, s, a).accepted == s.accepted + 1 && spent == LegsLeft(c, pc) + LegCount(c)
  {
    if a.Exchange? {
      LegsShrink(c, s.tasks[a.t].leg);
    }
    hide ZoneAfter, LateAfter, MakeRecord, Apply, LegsFrom;
  }

  lemma {:induction false} MessagesCounted(c: Config, zone: Zone, counter: u64, acts: seq<Action>)
    requires EngineOrder.FaultFree(c, Init(c, zone, counter), acts)
    ensures var s := After(c, Init(c, zone, counter), acts);
      Exchanges(c, Init(c, zone, counter), acts) + Sum(s.tasks, LegsLeftOf(c)) == LegCount(c) * s.accepted
  {
    var s0 := Init(c, zone, counter);
    if acts == [] {
      SumZero(s0.tasks, LegsLeftOf(c));
    } else {
      hide Sum, Init;
      var n := |acts| - 1;
      var a := acts[n];
      MessagesCounted(c, zone, counter, acts[..n]);
      var s := After(c, s0, acts[..n]);
      if Enabled(c, s, a) {
        OneTaskMoves(c, s, a);
        if TaskOf(a).Some? {
          var t, s' := TaskOf(a).value, Step(c, s, a);
          MessageAccounted(c, s, a);
          SumUpdate(s.tasks, t, s'.tasks[t], LegsLeftOf(c));
          hide Step, LegsLeft;
          var k := LegCount(c);
          if s'.accepted == s.accepted + 1 {
            MulSucc(k, s.accepted);
          }
        }
      }
    }
  }

  /** A fault-free run of n transactions exchanges n times the legs of its
      shape, so the documented four messages per request hold exactly when
      both PTR and delete legs are on (or nothing was sent). */
  lemma FourMessagesPerRequest(c: Config, zone: Zone, counter: u64, acts: seq<Action>, report: Stats.RunReport)
    requires EngineOrder.FaultFree(c, Init(c, zone, counter), acts)
    requires Finished(After(c, Init(c, zone, counter), acts))
    requires Stats.Summarises(After(c, Init(c, zone, counter), acts).received, report)
    ensures Exchanges(c, Init(c, zone, counter), acts) == LegCount(c) * report.totalSent
    ensures Exchanges(c, Init(c, zone, counter), acts) == 4 * report.totalSent
      <==> (c.shape.includePtr && c.shape.includeDelete) || report.totalSent == 0
  {
    MessagesCounted(c, zone, counter, acts);
    FinalReport(c, zone, counter, acts, report);
    SumZero(After(c, Init(c, zone, counter), acts).tasks, LegsLeftOf(c));
    TransactionShapes();
    OnlyFourIsFour(LegCount(c), report.totalSent);
  }

  lemma OnlyFourIsFour(legs: nat, n: nat)
    ensures legs * n == 4 * n <==> legs == 4 || n == 0
  {
    if n > 0 && legs * n == 4 * n {
      EqualFactors(legs, 4, n);
    }
  }

  lemma EqualFactors(x: nat, y: nat, n: nat)
    requires n > 0 && x * n == y * n
    ensures x == y
  {
  }
}
