/** What the outcomes of a run say, by cause and by clock. */
module EngineOutcomes {
  import opened Prelude
  import opened Update
  import opened Transaction
  import opened Engine
  import opened EngineTickets
  import Stats

  // ── Errors by cause ──────────────────────────────────────────────────────

  /** Answers that end a leg's transaction, by number: all but NOERROR (0),
      and YXRRSET (7) for an add or NXRRSET (8) for a delete. */
  predicate Refusal(leg: Leg, code: u16) {
    code != 0 && code != (if leg.AddA? || leg.AddPtr? then 7 else 8)
  }

  /** One if this step is what an error of this kind stands for: a connection
      or a message that timed out, one that broke, or a refusal by its code. */
  function Causes(e: Stats.ErrorKind, s: State, a: Action): nat {
    match a
    case Connect(_, failure) =>
      if failure == Some(TimedOut) && e == Stats.Timeout then 1
      else if failure == Some(Broken) && e == Stats.Transport then 1
      else 0
    case Exchange(t, v) =>
      if v == Lost(TimedOut) && e == Stats.Timeout then 1
      else if v == Lost(Broken) && e == Stats.Transport then 1
      else if v.Answered? && e == Stats.DnsRejected(v.code)
           && t < |s.tasks| && s.tasks[t].Sending? && Refusal(s.tasks[t].leg, v.code) then 1
      else 0
    case _ => 0
  }

  /** Effective steps of a schedule that cause errors of one kind. */
  function CauseCount(c: Config, s: State, acts: seq<Action>, e: Stats.ErrorKind): nat {
    if acts == [] then 0
    else
      var s', a := After(c, s, acts[..|acts| - 1]), acts[|acts| - 1];
      CauseCount(c, s, acts[..|acts| - 1], e) + (if Enabled(c, s', a) then Causes(e, s', a) else 0)
  }

  function Reports(e: Stats.ErrorKind): Pc -> nat {
    (pc: Pc) => if pc.Reporting? && pc.error == Some(e) then 1 else 0
  }

  function HasKind(e: Stats.ErrorKind): Stats.Outcome -> nat {
    (o: Stats.Outcome) => if o.error == Some(e) then 1 else 0
  }

  /** Errors of one kind held by a task, queued, or folded into the report. */
  function KindCount(e: Stats.ErrorKind, s: State): nat {
    Sum(s.tasks, Reports(e)) + Sum(s.channel, HasKind(e)) + Sum(s.received, HasKind(e))
  }

  lemma VerdictKind(c: Config, s: State, t: nat, v: Verdict, e: Stats.ErrorKind)
    requires Enabled(c, s, Exchange(t, v))
    ensures Reports(e)(Step(c, s, Exchange(t, v)).tasks[t]) == Causes(e, s, Exchange(t, v))
    ensures Step(c, s, Exchange(t, v)).channel == s.channel && Step(c, s, Exchange(t, v)).received == s.received
  {
    hide ZoneAfter, LateAfter, LegMessage;
  }

  lemma OtherKind(c: Config, s: State, a: Action, e: Stats.ErrorKind)
    requires Enabled(c, s, a) && TaskOf(a).Some? && !a.Report? && !a.Exchange?
    ensures Reports(e)(Step(c, s, a).tasks[TaskOf(a).value]) == Causes(e, s, a)
    ensures Step(c, s, a).channel == s.channel && Step(c, s, a).received == s.received
  {
    hide DrawnHost;
  }

  lemma TaskKind(c: Config, s: State, a: Action, e: Stats.ErrorKind)
    requires Enabled(c, s, a) && TaskOf(a).Some? && !a.Report?
    ensures KindCount(e, Step(c, s, a)) == KindCount(e, s) + Causes(e, s, a)
  {
    var t := TaskOf(a).value;
    OneTaskMoves(c, s, a);
    if a.Exchange? {
      VerdictKind(c, s, t, a.v, e);
    } else {
      OtherKind(c, s, a, e);
    }
    hide Step, Sum, Causes;
    SumUpdate(s.tasks, t, Step(c, s, a).tasks[t], Reports(e));
  }

  lemma QueueKind(c: Config, s: State, a: Action, e: Stats.ErrorKind)
    requires Enabled(c, s, a) && (a.Report? || a.Receive?)
    ensures KindCount(e, Step(c, s, a)) == KindCount(e, s) + Causes(e, s, a)
  {
    hide Sum;
    if a.Report? {
      SumUpdate(s.tasks, a.t, Checking, Reports(e));
      SumAppend(s.channel, Stats.Outcome(a.latencyUs, s.tasks[a.t].error), HasKind(e));
    } else {
      assert s.channel == [s.channel[0]] + s.channel[1..];
      SumConcat([s.channel[0]], s.channel[1..], HasKind(e));
      SumSmall(s.channel[0], HasKind(e));
      SumAppend(s.received, s.channel[0], HasKind(e));
    }
  }

  lemma KindStep(c: Config, s: State, a: Action, e: Stats.ErrorKind)
    requires Enabled(c, s, a)
    ensures KindCount(e, Step(c, s, a)) == KindCount(e, s) + Causes(e, s, a)
  {
    if a.Report? || a.Receive? {
      QueueKind(c, s, a, e);
    } else if TaskOf(a).Some? {
      TaskKind(c, s, a, e);
    }
  }

  /** Errors are conserved kind by kind, in every state of every interleaving
      and against any server: a timeout outcome for every connection or
      message that timed out, a transport outcome for every one that broke,
      and one under its own code for every refusal. */
  lemma {:induction false} ErrorsByCause(c: Config, zone: Zone, counter: u64, acts: seq<Action>, e: Stats.ErrorKind)
    ensures KindCount(e, After(c, Init(c, zone, counter), acts)) == CauseCount(c, Init(c, zone, counter), acts, e)
  {
    if acts == [] {
      SumZero(Init(c, zone, counter).tasks, Reports(e));
    } else {
      hide KindCount, Causes, Step, Enabled, Init;
      var n := |acts| - 1;
      ErrorsByCause(c, zone, counter, acts[..n], e);
      var s := After(c, Init(c, zone, counter), acts[..n]);
      if Enabled(c, s, acts[n]) {
        KindStep(c, s, acts[n], e);
      }
    }
  }

  lemma {:induction false} SameSum<T>(xs: seq<T>, f: T -> nat, g: T -> nat)
    requires forall i :: 0 <= i < |xs| ==> f(xs[i]) == g(xs[i])
    ensures Sum(xs, f) == Sum(xs, g)
  {
    if xs != [] {
      SameSum(xs[..|xs| - 1], f, g);
    }
  }

  /** The breakdown of the report, by cause, the most frequent code first. */
  ghost predicate BrokenDown(c: Config, s0: State, acts: seq<Action>, r: Stats.RunReport) {
    && r.totalTimeout == CauseCount(c, s0, acts, Stats.Timeout)
    && r.totalTransport == CauseCount(c, s0, acts, Stats.Transport)
    && (forall code: u16, n: nat ::
          (code, n) in r.dnsCodes <==> n > 0 && n == CauseCount(c, s0, acts, Stats.DnsRejected(code)))
    && (forall i, j :: 0 <= i < j < |r.dnsCodes| ==>
          r.dnsCodes[i].1 >= r.dnsCodes[j].1 && r.dnsCodes[i].0 != r.dnsCodes[j].0)
  }

  lemma FinalKind(c: Config, zone: Zone, counter: u64, acts: seq<Action>, e: Stats.ErrorKind)
    requires AllExited(After(c, Init(c, zone, counter), acts))
    ensures Sum(Drained(After(c, Init(c, zone, counter), acts)).received, HasKind(e))
      == CauseCount(c, Init(c, zone, counter), acts, e)
  {
    ErrorsByCause(c, zone, counter, acts, e);
    var s := After(c, Init(c, zone, counter), acts);
    hide After, Init, CauseCount;
    SumZero(s.tasks, Reports(e));
    SumConcat(s.received, s.channel, HasKind(e));
  }

  lemma FinalBreakdown(c: Config, zone: Zone, counter: u64, acts: seq<Action>, r: Stats.RunReport)
    requires AllExited(After(c, Init(c, zone, counter), acts))
    requires Stats.Summarises(Drained(After(c, Init(c, zone, counter), acts)).received, r)
    ensures BrokenDown(c, Init(c, zone, counter), acts, r)
  {
    var os := Drained(After(c, Init(c, zone, counter), acts)).received;
    FinalKind(c, zone, counter, acts, Stats.Timeout);
    FinalKind(c, zone, counter, acts, Stats.Transport);
    SameSum(os, HasKind(Stats.Timeout), Stats.IsTimeout);
    SameSum(os, HasKind(Stats.Transport), Stats.IsTransport);
    hide After, Init, CauseCount, Drained, Sum;
    forall code: u16
      ensures Stats.CodeCount(os, code) == CauseCount(c, Init(c, zone, counter), acts, Stats.DnsRejected(code))
    {
      FinalKind(c, zone, counter, acts, Stats.DnsRejected(code));
      SameSum(os, HasKind(Stats.DnsRejected(code)), Stats.HasCode(code));
    }
  }

  // ── Latencies ────────────────────────────────────────────────────────────

  /** What the clock gave for each outcome, in the order they were sent. */
  function Clocked(c: Config, s: State, acts: seq<Action>): seq<nat> {
    if acts == [] then []
    else
      var s', a := After(c, s, acts[..|acts| - 1]), acts[|acts| - 1];
      Clocked(c, s, acts[..|acts| - 1]) + (if a.Report? && Enabled(c, s', a) then [a.latencyUs] else [])
  }

  lemma LatencyStep(c: Config, s: State, a: Action)
    requires Enabled(c, s, a)
    ensures Stats.Latencies(Step(c, s, a).received + Step(c, s, a).channel)
      == Stats.Latencies(s.received + s.channel) + (if a.Report? then [a.latencyUs] else [])
  {
    hide ZoneAfter, LateAfter, Advance, DrawnHost, Apply;
    if a.Receive? {
      assert s.received + s.channel == (s.received + [s.channel[0]]) + s.channel[1..];
    }
  }

  /** In every state the outcomes folded and queued carry the latencies that
      were clocked, in the order they were sent. */
  lemma {:induction false} LatenciesClocked(c: Config, zone: Zone, counter: u64, acts: seq<Action>)
    ensures var s := After(c, Init(c, zone, counter), acts);
      Stats.Latencies(s.received + s.channel) == Clocked(c, Init(c, zone, counter), acts)
  {
    if acts != [] {
      hide Step, Enabled, Stats.Latencies;
      var n := |acts| - 1;
      LatenciesClocked(c, zone, counter, acts[..n]);
      var s := After(c, Init(c, zone, counter), acts[..n]);
      if Enabled(c, s, acts[n]) {
        LatencyStep(c, s, acts[n]);
      }
    }
  }

  function Same(x: nat): nat { x }

  /** Least, mean and greatest of the clocked latencies. */
  ghost predicate Measures(r: Stats.RunReport, xs: seq<nat>) {
    if xs == [] then r.minUs == 0 && r.maxUs == 0 && r.meanUs == 0.0
    else
      && r.minUs in xs && r.maxUs in xs && (forall x :: x in xs ==> r.minUs <= x <= r.maxUs)
      && r.meanUs * |xs| as real == Sum(xs, Same) as real
  }

  lemma {:induction false} SumOfLatencies(os: seq<Stats.Outcome>)
    ensures Sum(os, Stats.Latency) == Sum(Stats.Latencies(os), Same)
  {
    if os != [] {
      var n := |os| - 1;
      SumOfLatencies(os[..n]);
      assert Stats.Latencies(os)[..n] == Stats.Latencies(os[..n]);
    }
  }

  lemma LatencyIn(os: seq<Stats.Outcome>, o: Stats.Outcome)
    requires o in os
    ensures o.latencyUs in Stats.Latencies(os)
  {
    var i :| 0 <= i < |os| && os[i] == o;
    assert Stats.Latencies(os)[i] == o.latencyUs;
  }

  lemma LatencyOf(os: seq<Stats.Outcome>, x: nat)
    requires x in Stats.Latencies(os)
    ensures exists o :: o in os && o.latencyUs == x
  {
    var i :| 0 <= i < |os| && Stats.Latencies(os)[i] == x;
    assert os[i] in os;
  }

  lemma ExtremeLatencies(os: seq<Stats.Outcome>, lo: nat, hi: nat)
    requires Stats.IsMin(os, lo) && Stats.IsMax(os, hi)
    ensures lo in Stats.Latencies(os) && hi in Stats.Latencies(os)
    ensures forall x :: x in Stats.Latencies(os) ==> lo <= x <= hi
  {
    hide Stats.Latencies;
    var a :| a in os && a.latencyUs == lo;
    var b :| b in os && b.latencyUs == hi;
    LatencyIn(os, a);
    LatencyIn(os, b);
    forall x | x in Stats.Latencies(os)
      ensures lo <= x <= hi
    {
      LatencyOf(os, x);
    }
  }

  lemma MeanTimesCount(sum: nat, n: nat)
    requires n > 0
    ensures sum as real / n as real * n as real == sum as real
  {
  }

  lemma SummaryMeasures(os: seq<Stats.Outcome>, r: Stats.RunReport)
    requires Stats.Summarises(os, r)
    ensures Measures(r, Stats.Latencies(os))
  {
    SumOfLatencies(os);
    hide Stats.IsHistogram, Stats.IsMin, Stats.IsMax, Sum;
    if os != [] {
      ExtremeLatencies(os, r.minUs, r.maxUs);
      MeanTimesCount(Sum(os, Stats.Latency), |os|);
    }
  }

  /** The report's latency figures are those of the clocked latencies. */
  lemma FinalLatencies(c: Config, zone: Zone, counter: u64, acts: seq<Action>, r: Stats.RunReport)
    requires Stats.Summarises(Drained(After(c, Init(c, zone, counter), acts)).received, r)
    ensures Measures(r, Clocked(c, Init(c, zone, counter), acts))
  {
    LatenciesClocked(c, zone, counter, acts);
    SummaryMeasures(Drained(After(c, Init(c, zone, counter), acts)).received, r);
  }
}
