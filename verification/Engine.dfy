/** The load run of src/engine.rs as a transition system: any number of tasks,
    interleaved at every atomic operation, against any server. */
module Engine {
  import opened Prelude
  import opened Names
  import opened Records
  import opened Update
  import opened Transaction
  import Stats

  datatype Config = Config(concurrency: nat, requests: Option<u64>, generator: Generator, shape: Shape)

  /** The ticket limit; no --requests means the largest u64. */
  function Limit(c: Config): u64 {
    match c.requests
    case None => U64_MODULUS - 1
    case Some(n) => n
  }

  /** Where a task stands in its loop. */
  datatype Pc =
    | Checking                                 // about to read the cancel flag
    | Claiming                                 // about to fetch_add the ticket counter
    | GivingBack                               // over the limit, about to fetch_sub
    | Claimed                                  // has a ticket, waiting for the limiter, about to draw
    | Connecting(rec: DnsRecord)               // about to open its client
    | Sending(rec: DnsRecord, leg: Leg)        // about to exchange this leg's message
    | Reporting(error: Option<Stats.ErrorKind>) // about to push its outcome
    | Exited

  /** Shared state. `accepted`, `drawn` and `failed` are history: tickets
      granted, records drawn, and records of transactions that failed. */
  datatype State = State(
    sent: u64, counter: u64, cancel: bool,
    zone: Zone, late: set<Message>,
    tasks: seq<Pc>,
    channel: seq<Stats.Outcome>, received: seq<Stats.Outcome>,
    accepted: nat, drawn: seq<DnsRecord>, failed: seq<DnsRecord>)

  function Init(c: Config, zone: Zone, counter: u64): State {
    State(0, counter, false, zone, {}, seq(c.concurrency, _ => Checking), [], [], 0, [], [])
  }

  datatype Action =
    | CheckCancel(t: nat)
    | FetchAdd(t: nat)
    | GiveBack(t: nat)
    | Draw(t: nat, pick: nat)
    | Connect(t: nat, failure: Option<Loss>)
    | Exchange(t: nat, v: Verdict)
    | Report(t: nat, latencyUs: u64)
    | Deliver(m: Message)
    | Receive
    | RaiseCancel

  function TaskOf(a: Action): Option<nat> {
    match a
    case CheckCancel(t) => Some(t)
    case FetchAdd(t) => Some(t)
    case GiveBack(t) => Some(t)
    case Draw(t, _) => Some(t)
    case Connect(t, _) => Some(t)
    case Exchange(t, _) => Some(t)
    case Report(t, _) => Some(t)
    case _ => None
  }

  predicate Enabled(c: Config, s: State, a: Action) {
    match a
    case CheckCancel(t) => t < |s.tasks| && s.tasks[t].Checking?
    case FetchAdd(t) => t < |s.tasks| && s.tasks[t].Claiming?
    case GiveBack(t) => t < |s.tasks| && s.tasks[t].GivingBack?
    case Draw(t, pick) => t < |s.tasks| && s.tasks[t].Claimed? && pick < |c.generator.hosts|
    case Connect(t, _) => t < |s.tasks| && s.tasks[t].Connecting?
    case Exchange(t, _) => t < |s.tasks| && s.tasks[t].Sending?
    case Report(t, _) => t < |s.tasks| && s.tasks[t].Reporting?
    case Deliver(m) => m in s.late
    case Receive => s.channel != []
    case RaiseCancel => true
  }

  function Goto(s: State, t: nat, pc: Pc): State
    requires t < |s.tasks|
  {
    s.(tasks := s.tasks[t := pc])
  }

  function Fail(s: State, t: nat, rec: DnsRecord, e: TxError): State
    requires t < |s.tasks|
  {
    Goto(s, t, Reporting(Some(ToErrorKind(e)))).(failed := s.failed + [rec])
  }

  function MessageOf(rec: DnsRecord, leg: Leg): Message {
    LegMessage(rec.hostname, rec.ip, leg)
  }

  function Resume(s: State, t: nat, rec: DnsRecord, p: Progress): State
    requires t < |s.tasks|
  {
    match p
    case Continue(leg) => Goto(s, t, Sending(rec, leg))
    case Done(None) => Goto(s, t, Reporting(None))
    case Done(Some(e)) => Fail(s, t, rec, e)
  }

  function DrawnHost(c: Config, counter: u64, pick: nat): Ipv4
    requires pick < |c.generator.hosts|
  {
    var g := c.generator;
    if g.random then g.hosts[pick] else g.hosts[Slot(counter, |g.hosts|)]
  }

  function Step(c: Config, s: State, a: Action): State
    requires Enabled(c, s, a)
  {
    match a
    case CheckCancel(t) => Goto(s, t, if s.cancel then Exited else Claiming)
    case FetchAdd(t) =>
      if s.sent >= Limit(c) then Goto(s, t, GivingBack).(sent := WrapAdd(s.sent))
      else Goto(s, t, Claimed).(sent := WrapAdd(s.sent), accepted := s.accepted + 1)
    case GiveBack(t) => Goto(s, t, Exited).(sent := WrapSub(s.sent))
    case Draw(t, pick) =>
      var rec := MakeRecord(c.generator, DrawnHost(c, s.counter, pick));
      Goto(s, t, Connecting(rec)).(
        counter := if c.generator.random then s.counter else WrapAdd(s.counter),
        drawn := s.drawn + [rec])
    case Connect(t, failure) =>
      var rec := s.tasks[t].rec;
      if failure.Some? then Fail(s, t, rec, Classify(failure.value)) else Goto(s, t, Sending(rec, AddA))
    case Exchange(t, v) =>
      var rec, leg := s.tasks[t].rec, s.tasks[t].leg;
      var m := MessageOf(rec, leg);
      Resume(s.(zone := ZoneAfter(s.zone, m, v), late := LateAfter(s.late, m, v)), t, rec, Advance(c.shape, leg, v))
    case Report(t, latencyUs) =>
      Goto(s, t, Checking).(channel := s.channel + [Stats.Outcome(latencyUs, s.tasks[t].error)])
    case Deliver(m) => s.(zone := Apply(s.zone, m))
    case Receive => s.(channel := s.channel[1..], received := s.received + [s.channel[0]])
    case RaiseCancel => s.(cancel := true)
  }

  /** A scheduler's choice that is not enabled is passed over. */
  function Try(c: Config, s: State, a: Action): State {
    if Enabled(c, s, a) then Step(c, s, a) else s
  }

  /** The state after a schedule; every sequence of choices is a schedule. */
  function After(c: Config, s: State, acts: seq<Action>): State {
    if acts == [] then s else Try(c, After(c, s, acts[..|acts| - 1]), acts[|acts| - 1])
  }

  /** Every exchange of the schedule gets an answer a conforming server gives. */
  predicate Conforming(c: Config, s: State, acts: seq<Action>) {
    acts == [] ||
    (Conforming(c, s, acts[..|acts| - 1]) && StepConforms(c, After(c, s, acts[..|acts| - 1]), acts[|acts| - 1]))
  }

  predicate StepConforms(c: Config, s: State, a: Action) {
    a.Exchange? && Enabled(c, s, a) ==>
      Conforms(s.zone, MessageOf(s.tasks[a.t].rec, s.tasks[a.t].leg), a.v)
  }

  predicate AllExited(s: State) {
    forall t :: 0 <= t < |s.tasks| ==> s.tasks[t].Exited?
  }

  /** All tasks joined and the collector has drained the channel. */
  predicate Finished(s: State) {
    AllExited(s) && s.channel == []
  }

  /** The collector has taken everything that was queued. */
  function Drained(s: State): State {
    s.(channel := [], received := s.received + s.channel)
  }

  function Receives(n: nat): seq<Action> {
    if n == 0 then [] else Receives(n - 1) + [Receive]
  }

  lemma {:induction false} ReceiveSome(c: Config, s: State, n: nat)
    requires n <= |s.channel|
    ensures After(c, s, Receives(n)) == s.(channel := s.channel[n..], received := s.received + s.channel[..n])
  {
    if n == 0 {
      assert s.received + s.channel[..0] == s.received;
    } else {
      ReceiveSome(c, s, n - 1);
      AfterSnoc(c, s, Receives(n - 1), Receive);
      assert s.channel[n - 1..][1..] == s.channel[n..];
      assert s.received + s.channel[..n] == s.received + s.channel[..n - 1] + [s.channel[n - 1]];
    }
  }

  /** Draining is itself a schedule. */
  lemma DrainedIsReached(c: Config, s: State)
    ensures After(c, s, Receives(|s.channel|)) == Drained(s)
  {
    ReceiveSome(c, s, |s.channel|);
  }

  lemma {:induction false} AfterConcat(c: Config, s: State, xs: seq<Action>, ys: seq<Action>)
    ensures After(c, s, xs + ys) == After(c, After(c, s, xs), ys)
  {
    if ys == [] {
      assert xs + ys == xs;
    } else {
      var n := |ys| - 1;
      AfterConcat(c, s, xs, ys[..n]);
      assert (xs + ys)[..|xs + ys| - 1] == xs + ys[..n];
    }
  }

  lemma AfterSnoc(c: Config, s: State, acts: seq<Action>, a: Action)
    ensures After(c, s, acts + [a]) == Try(c, After(c, s, acts), a)
  {
    assert (acts + [a])[..|acts|] == acts;
  }

  // ── The run as shared objects and atomic operations ──────────────────────

  class LoadRun {
    const config: Config
    const generator: RecordGenerator
    const sent: AtomicU64
    const server: UpdateServer
    var cancel: bool
    var tasks: seq<Pc>
    var channel: seq<Stats.Outcome>
    var received: seq<Stats.Outcome>
    ghost var accepted: nat
    ghost var drawn: seq<DnsRecord>
    ghost var failed: seq<DnsRecord>

    ghost predicate Valid()
      reads this
    {
      generator.spec == config.generator && config.generator.hosts != [] && sent != generator.counter
    }

    ghost function Abs(): State
      reads this, generator.counter, sent, server
    {
      State(sent.value, generator.counter.value, cancel, server.zone, server.late, tasks,
            channel, received, accepted, drawn, failed)
    }

    constructor (config: Config, generator: RecordGenerator, server: UpdateServer)
      requires generator.spec == config.generator && config.generator.hosts != []
      requires server.late == {}
      ensures Valid() && this.config == config && this.generator == generator && this.server == server
      ensures fresh(sent)
      ensures Abs() == Init(config, server.zone, generator.counter.value)
    {
      this.config, this.generator, this.server := config, generator, server;
      sent := new AtomicU64(0);
      cancel := false;
      tasks := seq(config.concurrency, _ => Checking);
      channel, received := [], [];
      accepted, drawn, failed := 0, [], [];
    }

    method Claim(t: nat)
      requires Valid() && t < |tasks| && tasks[t].Claiming?
      modifies this`tasks, this`accepted, sent
      ensures Valid() && Abs() == Step(config, old(Abs()), FetchAdd(t))
    {
      var n := sent.FetchAdd();
      if n >= Limit(config) {
        tasks := tasks[t := GivingBack];
      } else {
        tasks := tasks[t := Claimed];
        accepted := accepted + 1;
      }
    }

    method Return(t: nat)
      requires Valid() && t < |tasks| && tasks[t].GivingBack?
      modifies this`tasks, sent
      ensures Valid() && Abs() == Step(config, old(Abs()), GiveBack(t))
    {
      var _ := sent.FetchSub();
      tasks := tasks[t := Exited];
    }

    method DrawRecord(t: nat, pick: nat)
      requires Valid() && t < |tasks| && tasks[t].Claimed? && pick < |config.generator.hosts|
      modifies this`tasks, this`drawn, generator.counter
      ensures Valid() && Abs() == Step(config, old(Abs()), Draw(t, pick))
    {
      var rec := generator.Next(pick);
      tasks := tasks[t := Connecting(rec)];
      drawn := drawn + [rec];
    }

    method OpenClient(t: nat, failure: Option<Loss>)
      requires Valid() && t < |tasks| && tasks[t].Connecting?
      modifies this`tasks, this`failed
      ensures Valid() && Abs() == Step(config, old(Abs()), Connect(t, failure))
    {
      var rec := tasks[t].rec;
      if failure.Some? {
        tasks := tasks[t := Reporting(Some(ToErrorKind(Classify(failure.value))))];
        failed := failed + [rec];
      } else {
        tasks := tasks[t := Sending(rec, AddA)];
      }
    }

    method ExchangeLeg(t: nat, v: Verdict)
      requires Valid() && t < |tasks| && tasks[t].Sending?
      modifies this`tasks, this`failed, server
      ensures Valid() && Abs() == Step(config, old(Abs()), Exchange(t, v))
    {
      var rec, leg := tasks[t].rec, tasks[t].leg;
      var m := MessageOf(rec, leg);
      var failure;
      match m {
        case Create(key, data) => failure := TimedCreate(server, key, data, leg, v);
        case DeleteRrset(key) => failure := TimedDeleteRrset(server, key, leg, v);
      }
      if failure.Some? {
        tasks := tasks[t := Reporting(Some(ToErrorKind(failure.value)))];
        failed := failed + [rec];
      } else {
        var next := NextLeg(config.shape, leg);
        tasks := tasks[t := if next.Some? then Sending(rec, next.value) else Reporting(None)];
      }
    }

    method SendOutcome(t: nat, latencyUs: u64)
      requires Valid() && t < |tasks| && tasks[t].Reporting?
      modifies this`tasks, this`channel
      ensures Valid() && Abs() == Step(config, old(Abs()), Report(t, latencyUs))
    {
      channel := channel + [Stats.Outcome(latencyUs, tasks[t].error)];
      tasks := tasks[t := Checking];
    }

    method Perform(a: Action)
      requires Valid() && Enabled(config, Abs(), a)
      modifies this, generator.counter, sent, server
      ensures Valid() && Abs() == Step(config, old(Abs()), a)
    {
      match a {
        case CheckCancel(t) => tasks := tasks[t := if cancel then Exited else Claiming];
        case FetchAdd(t) => Claim(t);
        case GiveBack(t) => Return(t);
        case Draw(t, pick) => DrawRecord(t, pick);
        case Connect(t, failure) => OpenClient(t, failure);
        case Exchange(t, v) => ExchangeLeg(t, v);
        case Report(t, latencyUs) => SendOutcome(t, latencyUs);
        case Deliver(m) => server.zone := Apply(server.zone, m);
        case Receive =>
          received := received + [channel[0]];
          channel := channel[1..];
        case RaiseCancel => cancel := true;
      }
    }

    /** Lets the tasks run under a scheduler, joins them, then lets the
        collector drain what is left in the channel. */
    method Run(schedule: seq<Action>) returns (report: Stats.RunReport)
      requires Valid() && AllExited(After(config, Abs(), schedule))
      modifies this, generator.counter, sent, server
      ensures Valid() && Abs() == Drained(After(config, old(Abs()), schedule))
      ensures Stats.Summarises(received, report)
    {
      ghost var s0 := Abs();
      Interleave(schedule);
      ghost var s1 := Abs();
      while channel != []
        invariant Valid() && Drained(Abs()) == Drained(s1)
        decreases |channel|
      {
        Perform(Receive);
      }
      report := Stats.Collect(received);
    }

    method Interleave(schedule: seq<Action>)
      requires Valid()
      modifies this, generator.counter, sent, server
      ensures Valid() && Abs() == After(config, old(Abs()), schedule)
    {
      var i := 0;
      ghost var s0 := Abs();
      while i < |schedule|
        invariant 0 <= i <= |schedule|
        invariant Valid() && Abs() == After(config, s0, schedule[..i])
      {
        assert schedule[..i + 1] == schedule[..i] + [schedule[i]];
        AfterSnoc(config, s0, schedule[..i], schedule[i]);
        var enabled := IsEnabled(schedule[i]);
        if enabled {
          Perform(schedule[i]);
        }
        i := i + 1;
      }
      assert schedule[..i] == schedule;
    }

    method IsEnabled(a: Action) returns (b: bool)
      requires Valid()
      ensures b == Enabled(config, Abs(), a)
    {
      match a {
        case CheckCancel(t) => b := t < |tasks| && tasks[t].Checking?;
        case FetchAdd(t) => b := t < |tasks| && tasks[t].Claiming?;
        case GiveBack(t) => b := t < |tasks| && tasks[t].GivingBack?;
        case Draw(t, pick) => b := t < |tasks| && tasks[t].Claimed? && pick < |config.generator.hosts|;
        case Connect(t, _) => b := t < |tasks| && tasks[t].Connecting?;
        case Exchange(t, _) => b := t < |tasks| && tasks[t].Sending?;
        case Report(t, _) => b := t < |tasks| && tasks[t].Reporting?;
        case Deliver(m) => b := m in server.late;
        case Receive => b := channel != [];
        case RaiseCancel => b := true;
      }
    }
  }
}
