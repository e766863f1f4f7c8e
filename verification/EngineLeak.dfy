/** The leak bound cannot be lowered: late deliveries attain it. */
module EngineLeak {
  import opened Prelude
  import opened Names
  import opened Records
  import opened Update
  import opened Transaction
  import opened Engine
  import opened EngineTickets
  import opened EngineZone
  import opened EngineOrder
  import opened EngineLiveness
  import Stats

  /** Reached from s0 by a schedule on which the server keeps to RFC 2136. */
  ghost predicate Conformably(c: Config, s0: State, s: State) {
    exists acts :: Conforming(c, s0, acts) && After(c, s0, acts) == s
  }

  lemma ConformingStep(c: Config, s0: State, s: State, a: Action)
    requires Conformably(c, s0, s) && Enabled(c, s, a) && StepConforms(c, s, a)
    ensures Conformably(c, s0, Step(c, s, a))
  {
    hide Conforming, After, StepConforms, EngineOrder.FaultFree;
    var acts :| Conforming(c, s0, acts) && After(c, s0, acts) == s;
    OneMore(c, s0, acts, a);
  }

  /** Worker 0 at pc, n tickets granted, the others about to check. */
  predicate Alone(c: Config, s: State, pc: Pc, n: nat) {
    && |s.tasks| == c.concurrency >= 1 && s.tasks[0] == pc
    && !s.cancel && s.sent == n && s.accepted == n
    && forall t :: 1 <= t < c.concurrency ==> s.tasks[t] == Checking
  }

  lemma TakeTicket(c: Config, s0: State, s: State, n: nat) returns (s': State)
    requires Conformably(c, s0, s) && Alone(c, s, Checking, n) && n < Limit(c)
    ensures Conformably(c, s0, s') && Alone(c, s', Claimed, n + 1)
    ensures s'.zone == s.zone && s'.drawn == s.drawn && s'.failed == s.failed && s'.counter == s.counter
  {
    hide Conformably;
    ConformingStep(c, s0, s, CheckCancel(0));
    s' := Step(c, s, CheckCancel(0));
    ConformingStep(c, s0, s', FetchAdd(0));
    s' := Step(c, s', FetchAdd(0));
  }

  lemma DrawRecord(c: Config, s0: State, s: State, n: nat) returns (s': State, rec: DnsRecord)
    requires Conformably(c, s0, s) && Alone(c, s, Claimed, n)
    requires !c.generator.random && s.counter < |c.generator.hosts| < U64_MODULUS
    ensures Conformably(c, s0, s') && Alone(c, s', Connecting(rec), n)
    ensures rec == HostRecord(c, s.counter) && s'.drawn == s.drawn + [rec]
    ensures s'.zone == s.zone && s'.failed == s.failed && s'.counter == s.counter + 1
  {
    hide Conformably, MakeRecord;
    ConformingStep(c, s0, s, Draw(0, 0));
    s' := Step(c, s, Draw(0, 0));
    rec := s'.tasks[0].rec;
    SmallIndex(s.counter, |c.generator.hosts|);
    ModAtMost(s.counter, |c.generator.hosts|);
  }

  /** The first message gets no answer in time. */
  lemma LoseFirst(c: Config, s0: State, s: State, n: nat, rec: DnsRecord) returns (s': State)
    requires Conformably(c, s0, s) && Alone(c, s, Connecting(rec), n)
    ensures Conformably(c, s0, s') && Alone(c, s', Reporting(Some(Stats.Timeout)), n)
    ensures Create(AKey(rec.hostname), Address(rec.ip)) in s'.late
    ensures s'.zone == s.zone && s'.drawn == s.drawn && s'.failed == s.failed + [rec] && s'.counter == s.counter
  {
    hide Conformably;
    ConformingStep(c, s0, s, Connect(0, None));
    s' := Step(c, s, Connect(0, None));
    assert Alone(c, s', Sending(rec, AddA), n);
    ConformingStep(c, s0, s', Exchange(0, Lost(TimedOut)));
    s' := Step(c, s', Exchange(0, Lost(TimedOut)));
  }

  /** The outcome is sent, and then the message arrives after all. */
  lemma ReportThenDeliver(c: Config, s0: State, s: State, n: nat, m: Message) returns (s': State)
    requires Conformably(c, s0, s) && Alone(c, s, Reporting(Some(Stats.Timeout)), n) && m in s.late
    ensures Conformably(c, s0, s') && Alone(c, s', Checking, n)
    ensures s'.zone == Apply(s.zone, m)
    ensures s'.drawn == s.drawn && s'.failed == s.failed && s'.counter == s.counter
  {
    hide Conformably;
    ConformingStep(c, s0, s, Report(0, 0));
    s' := Step(c, s, Report(0, 0));
    ConformingStep(c, s0, s', Deliver(m));
    s' := Step(c, s', Deliver(m));
  }

  /** The A RRsets of the first n hosts. */
  function FirstKeys(c: Config, n: nat): set<Key>
    requires n <= |c.generator.hosts|
  {
    if n == 0 then {} else FirstKeys(c, n - 1) + {AKey(HostRecord(c, n - 1).hostname)}
  }

  /** n requests gone wrong: the first n hosts' A RRsets, and no others, are in
      the zone. */
  ghost predicate Leaky(c: Config, s: State, n: nat) {
    && n <= |c.generator.hosts|
    && |s.drawn| == n && s.failed == s.drawn && s.counter == n
    && (forall i :: 0 <= i < n ==> s.drawn[i] == HostRecord(c, i))
    && s.zone.Keys == FirstKeys(c, n) && |s.zone| == n
  }

  lemma KeysDiffer(c: Config, i: nat, j: nat)
    requires ValidGenerator(c.generator) && i < j < |c.generator.hosts|
    ensures AKey(HostRecord(c, i).hostname) != AKey(HostRecord(c, j).hostname)
  {
    hide Hostname, PtrName;
    HostnameInjective(c.generator.prefix, c.generator.zone, c.generator.hosts[i], c.generator.hosts[j]);
  }

  lemma {:induction false} KeyIsNew(c: Config, n: nat, i: nat)
    requires ValidGenerator(c.generator) && n <= i < |c.generator.hosts|
    ensures AKey(HostRecord(c, i).hostname) !in FirstKeys(c, n)
  {
    hide HostRecord, ValidGenerator;
    if n > 0 {
      KeyIsNew(c, n - 1, i);
      KeysDiffer(c, n - 1, i);
    }
  }

  lemma {:induction false} KeyOfHost(c: Config, n: nat, k: Key) returns (i: nat)
    requires n <= |c.generator.hosts| && k in FirstKeys(c, n)
    ensures i < n && k == AKey(HostRecord(c, i).hostname)
  {
    hide HostRecord;
    if k == AKey(HostRecord(c, n - 1).hostname) {
      i := n - 1;
    } else {
      i := KeyOfHost(c, n - 1, k);
    }
  }

  lemma OneMoreLeaked(c: Config, s: State, s': State, n: nat)
    requires ValidGenerator(c.generator) && Leaky(c, s, n) && n < |c.generator.hosts|
    requires var r := HostRecord(c, n);
      && s'.drawn == s.drawn + [r] && s'.failed == s.failed + [r] && s'.counter == n + 1
      && s'.zone == Apply(s.zone, Create(AKey(r.hostname), Address(r.ip)))
    ensures Leaky(c, s', n + 1)
  {
    hide HostRecord;
    KeyIsNew(c, n, n);
    assert s'.zone.Keys == s.zone.Keys + {AKey(HostRecord(c, n).hostname)};
  }

  lemma LeakOne(c: Config, s0: State, s: State, n: nat) returns (s': State)
    requires ValidGenerator(c.generator) && !c.generator.random
    requires n < Limit(c) && n < |c.generator.hosts|
    requires Conformably(c, s0, s) && Alone(c, s, Checking, n) && Leaky(c, s, n)
    ensures Conformably(c, s0, s') && Alone(c, s', Checking, n + 1) && Leaky(c, s', n + 1)
  {
    LeakyCounter(c, s, n);
    hide Conformably, Alone, Leaky, HostRecord, Limit;
    var s1 := TakeTicket(c, s0, s, n);
    var s2, rec := DrawRecord(c, s0, s1, n + 1);
    var s3 := LoseFirst(c, s0, s2, n + 1, rec);
    s' := ReportThenDeliver(c, s0, s3, n + 1, Create(AKey(rec.hostname), Address(rec.ip)));
    OneMoreLeaked(c, s, s', n);
  }

  lemma AtStart(c: Config)
    ensures Conformably(c, Init(c, map[], 0), Init(c, map[], 0))
    ensures c.concurrency >= 1 ==> Alone(c, Init(c, map[], 0), Checking, 0) && Leaky(c, Init(c, map[], 0), 0)
  {
    var s0 := Init(c, map[], 0);
    assert Conforming(c, s0, []) && After(c, s0, []) == s0;
  }

  lemma {:induction false} LeakMany(c: Config, n: nat) returns (s: State)
    requires ValidGenerator(c.generator) && !c.generator.random && c.concurrency >= 1
    requires n <= Limit(c) && n <= |c.generator.hosts|
    ensures var s0 := Init(c, map[], 0); Conformably(c, s0, s) && Alone(c, s, Checking, n) && Leaky(c, s, n)
  {
    hide Conformably, Alone, Leaky, Init, Limit, ValidGenerator;
    AtStart(c);
    s := Init(c, map[], 0);
    if n > 0 {
      s := LeakMany(c, n - 1);
      s := LeakOne(c, Init(c, map[], 0), s, n - 1);
    }
  }

  lemma LeakyCounter(c: Config, s: State, n: nat)
    requires Leaky(c, s, n)
    ensures s.counter == n
  {
  }

  // ── The end of the run ───────────────────────────────────────────────────

  /** The flag is up, the first u workers are gone, the others about to check. */
  predicate Leaving(c: Config, s: State, u: nat) {
    && |s.tasks| == c.concurrency && s.cancel && u <= c.concurrency
    && forall t :: 0 <= t < c.concurrency ==> s.tasks[t] == if t < u then Exited else Checking
  }

  predicate SameLeak(s: State, s': State) {
    s'.zone == s.zone && s'.drawn == s.drawn && s'.failed == s.failed && s'.counter == s.counter
  }

  lemma Raise(c: Config, s0: State, s: State, n: nat) returns (s': State)
    requires Conformably(c, s0, s) && Alone(c, s, Checking, n)
    ensures Conformably(c, s0, s') && Leaving(c, s', 0) && SameLeak(s, s')
  {
    hide Conformably;
    ConformingStep(c, s0, s, RaiseCancel);
    s' := Step(c, s, RaiseCancel);
  }

  lemma {:induction false} LeaveAll(c: Config, s0: State, s: State, u: nat) returns (s': State)
    requires Conformably(c, s0, s) && Leaving(c, s, u)
    ensures Conformably(c, s0, s') && AllExited(s') && SameLeak(s, s')
    decreases c.concurrency - u
  {
    hide Conformably;
    s' := s;
    if u < c.concurrency {
      ConformingStep(c, s0, s, CheckCancel(u));
      s' := LeaveAll(c, s0, Step(c, s, CheckCancel(u)), u + 1);
    }
  }

  lemma {:induction false} CollectAll(c: Config, s0: State, s: State) returns (s': State)
    requires Conformably(c, s0, s) && AllExited(s)
    ensures Conformably(c, s0, s') && Finished(s') && SameLeak(s, s')
    decreases |s.channel|
  {
    hide Conformably;
    s' := s;
    if s.channel != [] {
      ConformingStep(c, s0, s, Receive);
      s' := CollectAll(c, s0, Step(c, s, Receive));
    }
  }

  lemma AllLeaked(c: Config, s: State, n: nat)
    requires Leaky(c, s, n)
    ensures |Leaked(c, s, A)| == n
  {
    forall k | k in s.zone
      ensures k.rrtype == A && Owned(c, s.drawn, k)
    {
      var i := KeyOfHost(c, n, k);
      assert s.drawn[i] in s.drawn && k in Keys(c, s.drawn[i]);
    }
    assert Leaked(c, s, A) == s.zone.Keys;
  }

  /** A finished run against a conforming server with n failures that leaves n
      drawn A RRsets behind. */
  ghost predicate LeaksAll(c: Config, acts: seq<Action>, n: nat) {
    var s := After(c, Init(c, map[], 0), acts);
    && Conforming(c, Init(c, map[], 0), acts) && Finished(s)
    && Sum(s.received, Stats.IsErr) == n && |Leaked(c, s, A)| == n
  }

  /** The leak bound is attained for every number of errors, up to the hosts
      and the requests there are, by messages that arrive late. */
  lemma LeakBoundAttained(c: Config, n: nat)
    requires ValidGenerator(c.generator) && !c.generator.random && c.concurrency >= 1
    requires n <= Limit(c) && n <= |c.generator.hosts|
    ensures exists acts :: LeaksAll(c, acts, n)
  {
    var s0 := Init(c, map[], 0);
    var s1 := LeakMany(c, n);
    var s2 := Raise(c, s0, s1, n);
    var s3 := LeaveAll(c, s0, s2, 0);
    var s := CollectAll(c, s0, s3);
    assert Leaky(c, s, n);
    AllLeaked(c, s, n);
    hide Leaky, Leaked, Alone, Leaving, Init;
    var acts :| Conforming(c, s0, acts) && After(c, s0, acts) == s;
    assert |s.failed| == n by { LeakyFailures(c, s, n); }
    Conservation(c, map[], 0, acts);
    FinishedCounts(c, s);
    assert LeaksAll(c, acts, n);
  }

  lemma LeakyFailures(c: Config, s: State, n: nat)
    requires Leaky(c, s, n)
    ensures |s.failed| == n
  {
  }
}
