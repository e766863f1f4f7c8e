/** The perf test of src/perf.rs as a transition system: workers counting
    completions while the sampler reads the two counters one after the other. */
module PerfRun {
  import opened Prelude
  import opened Search
  import opened Convergence
  import opened Sampling
  import Stats

  datatype Config = Config(concurrency: nat, target: real, cap: u32, durationMs: nat)

  datatype Worker =
    | Checking            // about to read the cancel flag
    | Working             // waiting for the limiter or in a transaction
    | Counted(ok: bool)   // has bumped a counter, about to push its outcome
    | Exited

  datatype Sampler =
    | Sleeping(since: nat)
    | ReadingOk(at: nat)
    | ReadingErr(at: nat, ok: nat)
    | Stopped

  datatype State = State(
    now: nat, cancel: bool, ok: nat, err: nat,
    workers: seq<Worker>, channel: seq<Stats.Outcome>,
    sampler: Sampler, wakes: seq<Wake>)

  function Init(c: Config): State {
    State(0, false, 0, 0, seq(c.concurrency, _ => Checking), [], Sleeping(0), [])
  }

  datatype Action =
    | CheckCancel(t: nat)
    | Finish(t: nat, ok: bool)
    | Push(t: nat, latencyUs: u64)
    | Elapse(ms: nat)
    | WakeUp
    | ReadOk
    | ReadErr
    | RaiseCancel

  predicate Enabled(c: Config, s: State, a: Action) {
    match a
    case CheckCancel(t) => t < |s.workers| && s.workers[t].Checking?
    case Finish(t, _) => t < |s.workers| && s.workers[t].Working?
    case Push(t, _) => t < |s.workers| && s.workers[t].Counted?
    case Elapse(_) => true
    case WakeUp => s.sampler.Sleeping? && s.now >= s.sampler.since + SAMPLE_MS
    case ReadOk => s.sampler.ReadingOk?
    case ReadErr => s.sampler.ReadingErr?
    case RaiseCancel => s.sampler.Stopped?
  }

  /** The streak is complete after these windows. */
  ghost predicate Converged(c: Config, wakes: seq<Wake>) {
    Growing(wakes) && Searched(c.target, c.cap, WindowRates(wakes)).streak >= CONVERGE_N
  }

  function ErrorOf(ok: bool): Option<Stats.ErrorKind> {
    if ok then None else Some(Stats.Transport)
  }

  ghost function Step(c: Config, s: State, a: Action): State
    requires Enabled(c, s, a)
  {
    match a
    case CheckCancel(t) => s.(workers := s.workers[t := if s.cancel then Exited else Working])
    case Finish(t, ok) =>
      s.(workers := s.workers[t := Counted(ok)],
         ok := if ok then s.ok + 1 else s.ok, err := if ok then s.err else s.err + 1)
    case Push(t, latencyUs) =>
      s.(workers := s.workers[t := Checking],
         channel := s.channel + [Stats.Outcome(latencyUs, ErrorOf(s.workers[t].ok))])
    case Elapse(ms) => s.(now := s.now + ms)
    case WakeUp => s.(sampler := if s.now >= c.durationMs then Stopped else ReadingOk(s.now))
    case ReadOk => s.(sampler := ReadingErr(s.sampler.at, s.ok))
    case ReadErr =>
      var wakes := s.wakes + [Wake(s.sampler.at, s.sampler.ok, s.err)];
      s.(wakes := wakes, sampler := if Converged(c, wakes) then Stopped else Sleeping(s.now))
    case RaiseCancel => s.(cancel := true)
  }

  ghost function Try(c: Config, s: State, a: Action): State {
    if Enabled(c, s, a) then Step(c, s, a) else s
  }

  ghost function After(c: Config, s: State, acts: seq<Action>): State {
    if acts == [] then s else Try(c, After(c, s, acts[..|acts| - 1]), acts[|acts| - 1])
  }

  // ── Completions are conserved ────────────────────────────────────────────

  function CountedOk(w: Worker): nat { if w.Counted? && w.ok then 1 else 0 }

  function CountedErr(w: Worker): nat { if w.Counted? && !w.ok then 1 else 0 }

  ghost predicate Conserved(s: State) {
    && s.ok == Sum(s.workers, CountedOk) + Sum(s.channel, Stats.IsOk)
    && s.err == Sum(s.workers, CountedErr) + Sum(s.channel, Stats.IsErr)
  }

  lemma ConservedStep(c: Config, s: State, a: Action)
    requires Conserved(s) && Enabled(c, s, a)
    ensures Conserved(Step(c, s, a))
  {
    hide Sum, Converged;
    match a {
      case CheckCancel(t) =>
        var w := Step(c, s, a).workers[t];
        SumUpdate(s.workers, t, w, CountedOk);
        SumUpdate(s.workers, t, w, CountedErr);
      case Finish(t, ok) =>
        SumUpdate(s.workers, t, Counted(ok), CountedOk);
        SumUpdate(s.workers, t, Counted(ok), CountedErr);
      case Push(t, latencyUs) =>
        var o := Stats.Outcome(latencyUs, ErrorOf(s.workers[t].ok));
        SumUpdate(s.workers, t, Checking, CountedOk);
        SumUpdate(s.workers, t, Checking, CountedErr);
        SumAppend(s.channel, o, Stats.IsOk);
        SumAppend(s.channel, o, Stats.IsErr);
      case _ =>
    }
  }

  lemma {:induction false} AlwaysConserved(c: Config, acts: seq<Action>)
    ensures Conserved(After(c, Init(c), acts))
  {
    if acts == [] {
      SumZero(Init(c).workers, CountedOk);
      SumZero(Init(c).workers, CountedErr);
    } else {
      hide Step, Enabled, Conserved, Init;
      var n := |acts| - 1;
      AlwaysConserved(c, acts[..n]);
      var s := After(c, Init(c), acts[..n]);
      if Enabled(c, s, acts[n]) {
        ConservedStep(c, s, acts[n]);
      }
    }
  }

  predicate Joined(s: State) {
    forall t :: 0 <= t < |s.workers| ==> s.workers[t].Exited?
  }

  /** Because the channel is drained after the join, the number of latencies
      equals the completions the two counters report, kind by kind. */
  lemma DrainSeesEveryCompletion(c: Config, acts: seq<Action>)
    requires Joined(After(c, Init(c), acts))
    ensures var s := After(c, Init(c), acts);
      && |s.channel| == s.ok + s.err
      && Sum(s.channel, Stats.IsOk) == s.ok && Sum(s.channel, Stats.IsErr) == s.err
  {
    AlwaysConserved(c, acts);
    var s := After(c, Init(c), acts);
    SumZero(s.workers, CountedOk);
    SumZero(s.workers, CountedErr);
    Stats.BreakdownComplete(s.channel);
  }

  lemma {:induction false} FailuresAreTransport(c: Config, acts: seq<Action>)
    ensures forall o :: o in After(c, Init(c), acts).channel ==> o.error == None || o.error == Some(Stats.Transport)
  {
    if acts != [] {
      var n := |acts| - 1;
      FailuresAreTransport(c, acts[..n]);
      hide Converged, Init;
    }
  }

  // ── What the channel and the sampler record ──────────────────────────────

  /** Latencies of the effective pushes of a schedule. */
  ghost function Pushed(c: Config, s: State, acts: seq<Action>): seq<nat> {
    if acts == [] then []
    else
      var s', a := After(c, s, acts[..|acts| - 1]), acts[|acts| - 1];
      Pushed(c, s, acts[..|acts| - 1]) + (if a.Push? && Enabled(c, s', a) then [a.latencyUs] else [])
  }

  lemma PushedStep(c: Config, s: State, a: Action)
    requires Enabled(c, s, a)
    ensures Stats.Latencies(Step(c, s, a).channel) == Stats.Latencies(s.channel) + (if a.Push? then [a.latencyUs] else [])
  {
    hide Converged;
  }

  /** The drain sees the latencies that were pushed, in their order. */
  lemma {:induction false} LatenciesPushed(c: Config, acts: seq<Action>)
    ensures Stats.Latencies(After(c, Init(c), acts).channel) == Pushed(c, Init(c), acts)
  {
    if acts != [] {
      var n := |acts| - 1;
      LatenciesPushed(c, acts[..n]);
      hide Step, Enabled, Init, Stats.Latencies;
      var s := After(c, Init(c), acts[..n]);
      if Enabled(c, s, acts[n]) {
        PushedStep(c, s, acts[n]);
      }
    }
  }

  /** The clock at each wake-up before the deadline, each counter at each time
      it was read, and the clock when the sample was done. */
  datatype Log = Log(times: seq<nat>, oks: seq<nat>, errs: seq<nat>, ends: seq<nat>)

  ghost function LogStep(c: Config, s: State, a: Action, log: Log): Log {
    match a
    case WakeUp => if s.now < c.durationMs then log.(times := log.times + [s.now]) else log
    case ReadOk => log.(oks := log.oks + [s.ok])
    case ReadErr => log.(errs := log.errs + [s.err], ends := log.ends + [s.now])
    case _ => log
  }

  ghost function Logged(c: Config, s: State, acts: seq<Action>): Log {
    if acts == [] then Log([], [], [], [])
    else
      var s', log := After(c, s, acts[..|acts| - 1]), Logged(c, s, acts[..|acts| - 1]);
      if Enabled(c, s', acts[|acts| - 1]) then LogStep(c, s', acts[|acts| - 1], log) else log
  }

  ghost predicate Recorded(s: State, log: Log) {
    var n := |s.wakes|;
    && |log.errs| == |log.ends| == n
    && |log.oks| == n + (if s.sampler.ReadingErr? then 1 else 0)
    && |log.times| == n + (if s.sampler.ReadingErr? || s.sampler.ReadingOk? then 1 else 0)
    && (forall i :: 0 <= i < n ==> s.wakes[i] == Wake(log.times[i], log.oks[i], log.errs[i]))
    && (forall i :: 0 <= i < |log.times| ==> log.times[i] >= 500 + (if i == 0 then 0 else log.ends[i - 1]))
    && (s.sampler.Sleeping? ==> s.sampler.since == if n == 0 then 0 else log.ends[n - 1])
    && (s.sampler.ReadingOk? ==> s.sampler.at == log.times[n])
    && (s.sampler.ReadingErr? ==> s.sampler.at == log.times[n] && s.sampler.ok == log.oks[n])
  }

  lemma RecordedStep(c: Config, s: State, a: Action, log: Log)
    requires Recorded(s, log) && Enabled(c, s, a)
    ensures Recorded(Step(c, s, a), LogStep(c, s, a, log))
  {
    hide Converged;
  }

  /** Every window is computed from the clock and the two counters as they
      stood at its own three steps, however the workers run between them, and
      each starts 500 ms or more after the one before was done. */
  lemma {:induction false} ReadingsRecorded(c: Config, acts: seq<Action>)
    ensures Recorded(After(c, Init(c), acts), Logged(c, Init(c), acts))
  {
    if acts != [] {
      var n := |acts| - 1;
      ReadingsRecorded(c, acts[..n]);
      hide Step, LogStep, Recorded, Enabled, Init;
      var s := After(c, Init(c), acts[..n]);
      if Enabled(c, s, acts[n]) {
        RecordedStep(c, s, acts[n], Logged(c, Init(c), acts[..n]));
      }
    }
  }

  // ── After the flag is raised ─────────────────────────────────────────────

  function WorkerOf(a: Action): Option<nat> {
    match a
    case CheckCancel(t) => Some(t)
    case Finish(t, _) => Some(t)
    case Push(t, _) => Some(t)
    case _ => None
  }

  /** Effective worker steps of a schedule. */
  ghost function WorkerSteps(c: Config, s: State, acts: seq<Action>): nat {
    if acts == [] then 0
    else
      var s', a := After(c, s, acts[..|acts| - 1]), acts[|acts| - 1];
      WorkerSteps(c, s, acts[..|acts| - 1]) + (if Enabled(c, s', a) && WorkerOf(a).Some? then 1 else 0)
  }

  /** Past its cancel check and before its outcome is pushed. */
  function InRound(w: Worker): nat { if w.Working? || w.Counted? then 1 else 0 }

  function StepsToExit(w: Worker): nat {
    match w
    case Exited => 0
    case Checking => 1
    case Counted(_) => 2
    case Working => 3
  }

  lemma CancelledStep(c: Config, s: State, a: Action)
    requires s.cancel && Enabled(c, s, a)
    ensures var s' := Step(c, s, a);
      && s'.cancel && |s'.workers| == |s.workers|
      && |s'.channel| + Sum(s'.workers, InRound) <= |s.channel| + Sum(s.workers, InRound)
      && Sum(s'.workers, StepsToExit) + (if WorkerOf(a).Some? then 1 else 0) <= Sum(s.workers, StepsToExit)
  {
    hide Sum, Converged;
    if WorkerOf(a).Some? {
      var t := WorkerOf(a).value;
      SumUpdate(s.workers, t, Step(c, s, a).workers[t], InRound);
      SumUpdate(s.workers, t, Step(c, s, a).workers[t], StepsToExit);
    }
  }

  lemma {:induction false} CancelledBudget(c: Config, s0: State, acts: seq<Action>)
    requires s0.cancel
    ensures var s := After(c, s0, acts);
      && s.cancel && |s.workers| == |s0.workers|
      && |s.channel| + Sum(s.workers, InRound) <= |s0.channel| + Sum(s0.workers, InRound)
      && WorkerSteps(c, s0, acts) + Sum(s.workers, StepsToExit) <= Sum(s0.workers, StepsToExit)
  {
    hide Sum, Step, Enabled;
    if acts != [] {
      var n := |acts| - 1;
      CancelledBudget(c, s0, acts[..n]);
      var s := After(c, s0, acts[..n]);
      if Enabled(c, s, acts[n]) {
        CancelledStep(c, s, acts[n]);
      }
    }
  }

  /** From any state in which the flag is up, the workers push at most one more
      outcome each and take at most three more steps each. */
  lemma CancelStopsWorkers(c: Config, s: State, acts: seq<Action>)
    requires s.cancel
    ensures |After(c, s, acts).channel| <= |s.channel| + |s.workers|
    ensures WorkerSteps(c, s, acts) <= 3 * |s.workers|
  {
    CancelledBudget(c, s, acts);
    SumBound(s.workers, InRound, 1);
    SumBound(s.workers, StepsToExit, 3);
  }

  lemma {:induction false} AfterConcat(c: Config, s: State, xs: seq<Action>, ys: seq<Action>)
    ensures After(c, s, xs + ys) == After(c, After(c, s, xs), ys)
  {
    if ys == [] {
      assert xs + ys == xs;
    } else {
      var n := |ys| - 1;
      AfterConcat(c, s, xs, ys[..n]);
      assert (xs + ys)[..|xs + ys| - 1] == xs + ys[..n];
    }
  }

  lemma AfterOne(c: Config, s: State, a: Action)
    ensures After(c, s, [a]) == Try(c, s, a)
  {
    assert [a][..0] == [];
  }

  /** From any such state the workers can be joined, within three steps each. */
  lemma {:induction false} CancelledCanJoin(c: Config, s: State) returns (more: seq<Action>)
    requires s.cancel
    ensures Joined(After(c, s, more)) && |more| <= Sum(s.workers, StepsToExit)
    decreases Sum(s.workers, StepsToExit)
  {
    if Joined(s) {
      more := [];
    } else {
      var t :| 0 <= t < |s.workers| && !s.workers[t].Exited?;
      var w := s.workers[t];
      var a := if w.Checking? then CheckCancel(t) else if w.Working? then Finish(t, true) else Push(t, 0);
      assert Enabled(c, s, a);
      CancelledStep(c, s, a);
      AfterOne(c, s, a);
      hide Step, After, Sum, Joined;
      var rest := CancelledCanJoin(c, Step(c, s, a));
      more := [a] + rest;
      AfterConcat(c, s, [a], rest);
    }
  }

  /** Wherever the sampler is, it can stop: at the latest at the deadline. */
  lemma SamplerCanStop(c: Config, s: State) returns (more: seq<Action>)
    ensures After(c, s, more).sampler.Stopped?
    decreases match s.sampler case Stopped => 0 case Sleeping(_) => 1 case ReadingErr(_, _) => 2 case ReadingOk(_) => 3
  {
    hide Converged;
    match s.sampler {
      case Stopped =>
        more := [];
      case Sleeping(since) =>
        more := [Elapse(since + SAMPLE_MS + c.durationMs), WakeUp];
        AfterOne(c, s, more[0]);
        AfterOne(c, After(c, s, [more[0]]), WakeUp);
        AfterConcat(c, s, [more[0]], [WakeUp]);
      case _ =>
        var a := if s.sampler.ReadingOk? then ReadOk else ReadErr;
        AfterOne(c, s, a);
        var rest := SamplerCanStop(c, Step(c, s, a));
        more := [a] + rest;
        AfterConcat(c, s, [a], rest);
    }
  }

  /** The perf test never deadlocks: from every state its search can stop,
      raise the flag and join all workers. */
  lemma CanJoin(c: Config, s: State) returns (more: seq<Action>)
    ensures Joined(After(c, s, more)) && After(c, s, more).cancel
  {
    var stop := SamplerCanStop(c, s);
    var stopped := After(c, s, stop);
    AfterOne(c, stopped, RaiseCancel);
    var raised := After(c, stopped, [RaiseCancel]);
    var join := CancelledCanJoin(c, raised);
    CancelledBudget(c, raised, join);
    AfterConcat(c, stopped, [RaiseCancel], join);
    AfterConcat(c, s, stop, [RaiseCancel] + join);
    more := stop + ([RaiseCancel] + join);
  }

  // ── What the sampler sees ────────────────────────────────────────────────

  /** Readings never run ahead of the counters nor behind earlier readings. */
  ghost predicate ReadsInOrder(s: State) {
    && Growing(s.wakes)
    && OkBefore(s.wakes, |s.wakes|) <= s.ok && ErrBefore(s.wakes, |s.wakes|) <= s.err
    && (s.sampler.ReadingErr? ==> OkBefore(s.wakes, |s.wakes|) <= s.sampler.ok <= s.ok)
  }

  /** Wake-ups are at least one sample interval apart and before the deadline. */
  ghost predicate OnTime(c: Config, s: State) {
    && (forall i :: 0 <= i < |s.wakes| ==> SAMPLE_MS * (i + 1) <= s.wakes[i].atMs < c.durationMs)
    && (match s.sampler
        case Sleeping(since) => SAMPLE_MS * |s.wakes| <= since <= s.now
        case ReadingOk(at) => SAMPLE_MS * (|s.wakes| + 1) <= at <= s.now && at < c.durationMs
        case ReadingErr(at, _) => SAMPLE_MS * (|s.wakes| + 1) <= at <= s.now && at < c.durationMs
        case Stopped => true)
  }

  /** The loop stops at the first complete streak, or at the deadline. */
  ghost predicate StopsInTime(c: Config, s: State)
    requires Growing(s.wakes)
  {
    && Going(c.target, c.cap, WindowRates(s.wakes), |s.wakes|)
    && (!s.sampler.Stopped? ==> !Converged(c, s.wakes))
    && (s.sampler.Stopped? ==> Converged(c, s.wakes) || s.now >= c.durationMs)
  }

  ghost predicate Sampled(c: Config, s: State) {
    ReadsInOrder(s) && OnTime(c, s) && StopsInTime(c, s)
  }

  lemma GrowingAppend(wakes: seq<Wake>, w: Wake)
    requires Growing(wakes) && OkBefore(wakes, |wakes|) <= w.ok && ErrBefore(wakes, |wakes|) <= w.err
    ensures Growing(wakes + [w])
    ensures WindowRates(wakes + [w])[..|wakes|] == WindowRates(wakes)
  {
  }

  lemma GoingAppend(c: Config, wakes: seq<Wake>, w: Wake)
    requires Growing(wakes) && Growing(wakes + [w])
    requires WindowRates(wakes + [w])[..|wakes|] == WindowRates(wakes)
    requires Going(c.target, c.cap, WindowRates(wakes), |wakes|) && !Converged(c, wakes)
    ensures Going(c.target, c.cap, WindowRates(wakes + [w]), |wakes| + 1)
  {
    var pvs, longer := WindowRates(wakes), WindowRates(wakes + [w]);
    hide Searched, WindowRates;
    forall k | 0 <= k < |wakes| + 1
      ensures Searched(c.target, c.cap, longer[..k]).streak < CONVERGE_N
    {
      PrefixOfPrefix(longer, |wakes|, k);
      assert longer[..k] == pvs[..k];
      assert pvs[..|wakes|] == pvs;
    }
  }

  lemma ReadOnTime(c: Config, s: State)
    requires OnTime(c, s) && Enabled(c, s, ReadErr)
    ensures OnTime(c, Step(c, s, ReadErr))
  {
    hide Converged;
  }

  lemma ReadInOrder(c: Config, s: State)
    requires ReadsInOrder(s) && Enabled(c, s, ReadErr)
    ensures ReadsInOrder(Step(c, s, ReadErr))
  {
    GrowingAppend(s.wakes, Wake(s.sampler.at, s.sampler.ok, s.err));
    hide WindowRates, Converged;
  }

  lemma ReadStops(c: Config, s: State)
    requires Sampled(c, s) && Enabled(c, s, ReadErr) && Growing(Step(c, s, ReadErr).wakes)
    ensures StopsInTime(c, Step(c, s, ReadErr))
  {
    var w := Wake(s.sampler.at, s.sampler.ok, s.err);
    GrowingAppend(s.wakes, w);
    hide Growing, Searched, WindowRates, Going, OnTime, Converged;
    GoingAppend(c, s.wakes, w);
  }

  lemma SampledRead(c: Config, s: State)
    requires Sampled(c, s) && Enabled(c, s, ReadErr)
    ensures Sampled(c, Step(c, s, ReadErr))
  {
    ReadOnTime(c, s);
    ReadInOrder(c, s);
    ReadStops(c, s);
  }

  lemma SampledStep(c: Config, s: State, a: Action)
    requires Sampled(c, s) && Enabled(c, s, a)
    ensures Sampled(c, Step(c, s, a))
  {
    if a.ReadErr? {
      SampledRead(c, s);
    } else {
      hide Searched, WindowRates, Going, Converged;
    }
  }

  /** However the workers' increments fall between the sampler's two reads,
      window deltas never underflow, wake-ups keep their spacing, and the loop
      stops at the first complete streak or at the deadline. */
  lemma {:induction false} AlwaysSampled(c: Config, acts: seq<Action>)
    ensures Sampled(c, After(c, Init(c), acts))
  {
    if acts != [] {
      hide Step, Enabled, Sampled;
      var n := |acts| - 1;
      AlwaysSampled(c, acts[..n]);
      var s := After(c, Init(c), acts[..n]);
      if Enabled(c, s, acts[n]) {
        SampledStep(c, s, acts[n]);
      }
    }
  }

  /** Each completion lands in at most one window, and k windows need
      500k ms to have passed before the deadline. */
  lemma WindowsBounded(c: Config, acts: seq<Action>)
    ensures var s := After(c, Init(c), acts);
      && Growing(s.wakes)
      && Completed(s.wakes, |s.wakes|) <= s.ok + s.err
      && (s.wakes != [] ==> 500 * |s.wakes| < c.durationMs)
  {
    AlwaysSampled(c, acts);
    var s := After(c, Init(c), acts);
    hide After, StopsInTime;
    WindowsPartition(s.wakes, |s.wakes|);
  }

  /** When the sampler stops, its windows are exactly those the sequential
      search would have used, with the same verdict. */
  lemma StoppedSearchIsResult(c: Config, acts: seq<Action>)
    requires After(c, Init(c), acts).sampler.Stopped?
    ensures var s := After(c, Init(c), acts);
      && Growing(s.wakes)
      && SearchResult(c.target, c.cap, s.wakes, Converged(c, s.wakes), |s.wakes|)
      && (!Converged(c, s.wakes) ==> s.now >= c.durationMs)
  {
    AlwaysSampled(c, acts);
    var s := After(c, Init(c), acts);
    hide After, Searched, Init;
    assert WindowRates(s.wakes)[..|s.wakes|] == WindowRates(s.wakes);
  }

  /** If no transaction has failed, then under every interleaving a stopped
      sampler has converged exactly if it took Stop windows, and it never takes
      more, nor more than 97. */
  lemma ErrorFreePerfConverges(c: Config, acts: seq<Action>)
    requires c.target > 0.0
    requires After(c, Init(c), acts).err == 0 && After(c, Init(c), acts).sampler.Stopped?
    ensures var s := After(c, Init(c), acts);
      && |s.wakes| <= Stop(c.target, c.cap) <= 97
      && (Converged(c, s.wakes) <==> |s.wakes| == Stop(c.target, c.cap))
  {
    AlwaysSampled(c, acts);
    StoppedSearchIsResult(c, acts);
    StopBounds(c.target, c.cap);
    var s := After(c, Init(c), acts);
    hide After, Init, Searched, StopsInTime, Stop;
    ErrorFreeSearchStops(c.target, c.cap, s.wakes, Converged(c, s.wakes), |s.wakes|);
  }
}
