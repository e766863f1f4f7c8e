/** A whole benchmark: shared objects, an arbitrary schedule, the report. */
module Benchmark {
  import opened Prelude
  import opened Records
  import opened Update
  import opened Transaction
  import opened Engine
  import opened EngineTickets
  import opened EngineZone
  import opened EngineLiveness
  import opened EngineOutcomes
  import EngineOrder
  import Stats

  lemma {:induction false} CollectingConforms(c: Config, s: State, acts: seq<Action>, n: nat)
    requires Conforming(c, s, acts)
    ensures Conforming(c, s, acts + Receives(n))
  {
    if n == 0 {
      assert acts + [] == acts;
    } else {
      assert acts + Receives(n) == acts + Receives(n - 1) + [Receive];
      hide Conforming, After, Receives, Try, Step, Enabled, EngineOrder.FaultFree, EngineOrder.StepFaultFree;
      CollectingConforms(c, s, acts, n - 1);
      OneMore(c, s, acts + Receives(n - 1), Receive);
    }
  }

  /** The joined run, collected, as one schedule. */
  lemma CollectedSchedule(c: Config, s0: State, schedule: seq<Action>) returns (acts: seq<Action>)
    ensures After(c, s0, acts) == Drained(After(c, s0, schedule))
    ensures Conforming(c, s0, schedule) ==> Conforming(c, s0, acts)
  {
    var s := After(c, s0, schedule);
    acts := schedule + Receives(|s.channel|);
    DrainedIsReached(c, s);
    AfterConcat(c, s0, schedule, Receives(|s.channel|));
    if Conforming(c, s0, schedule) {
      CollectingConforms(c, s0, schedule, |s.channel|);
    }
  }

  /** What the returned report and zone say about the run. */
  ghost predicate Accounts(c: Config, z0: Zone, schedule: seq<Action>, report: Stats.RunReport, zone: Zone)
    requires c.generator.hosts != []
  {
    var s0 := Init(c, z0, 0);
    var s := After(c, s0, schedule);
    && zone == s.zone
    && report.totalSent == s.accepted == |s.drawn|
    && report.totalErr == |s.failed|
    && report.totalOk + report.totalErr == report.totalSent
    && report.totalTimeout + report.totalDnsError + report.totalTransport == report.totalErr
    && Sum(report.dnsCodes, Stats.CountOf) == report.totalDnsError
    && (forall n :: (NOERROR, n) !in report.dnsCodes)
    && BrokenDown(c, s0, schedule, report)
    && Measures(report, Clocked(c, s0, schedule))
    && (!s.cancel && c.concurrency >= 1 ==> SentAsRequested(c, report.totalSent))
    && (c.shape.includeDelete && Conforming(c, s0, schedule) && report.totalErr == 0 ==>
          forall k :: if Owned(c, s.drawn, k) then k !in zone else SameAt(zone, z0, k))
  }

  lemma RunAccounts(c: Config, z0: Zone, schedule: seq<Action>, report: Stats.RunReport)
    requires c.generator.hosts != []
    requires AllExited(After(c, Init(c, z0, 0), schedule))
    requires Stats.Summarises(Drained(After(c, Init(c, z0, 0), schedule)).received, report)
    ensures Accounts(c, z0, schedule, report, After(c, Init(c, z0, 0), schedule).zone)
  {
    var s0 := Init(c, z0, 0);
    var acts := CollectedSchedule(c, s0, schedule);
    var s := Drained(After(c, s0, schedule));
    FinalReport(c, z0, 0, acts, report);
    ReportHasNoCodeZero(c, z0, 0, acts, report);
    Stats.BreakdownComplete(s.received);
    Stats.HistogramTotal(s.received, report.dnsCodes);
    FinalBreakdown(c, z0, 0, schedule, report);
    FinalLatencies(c, z0, 0, schedule, report);
    if c.concurrency >= 1 && !s.cancel {
      AllRequestsSent(c, z0, 0, acts);
    }
    if c.shape.includeDelete && Conforming(c, s0, schedule) && report.totalErr == 0 {
      CleanRun(c, z0, 0, acts, report);
    }
  }

  /** Spawns the tasks on a fresh counter, joins them, drops the sender and
      waits for the collector. `schedule` is any interleaving that lets every
      task exit. */
  method RunBenchmark(c: Config, zone: Zone, schedule: seq<Action>) returns (report: Stats.RunReport, final: Zone)
    requires c.generator.hosts != []
    requires AllExited(After(c, Init(c, zone, 0), schedule))
    ensures Accounts(c, zone, schedule, report, final)
  {
    var generator := new RecordGenerator(c.generator);
    var server := new UpdateServer(zone);
    var run := new LoadRun(c, generator, server);
    report := run.Run(schedule);
    final := server.zone;
    RunAccounts(c, zone, schedule, report);
  }
}
