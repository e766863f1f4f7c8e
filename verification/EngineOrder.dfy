/** Sequential runs: which hosts are drawn, and why the final zone does not
    depend on the interleaving. */
module EngineOrder {
  import opened Prelude
  import opened Records
  import opened Update
  import opened Transaction
  import opened Engine
  import opened EngineZone
  import opened EngineAccumulation
  import EngineTickets
  import Stats

  function HostRecord(c: Config, i: nat): DnsRecord
    requires i < |c.generator.hosts|
  {
    MakeRecord(c.generator, c.generator.hosts[i])
  }

  /** The j-th record is the j-th host from where the counter stood. */
  ghost predicate Ordered(c: Config, counter: u64, drawn: seq<DnsRecord>)
    requires c.generator.hosts != []
  {
    forall j :: 0 <= j < |drawn| ==> drawn[j] == HostRecord(c, DrawIndex(counter, j, |c.generator.hosts|))
  }

  ghost predicate InOrder(c: Config, counter: u64, s: State)
    requires c.generator.hosts != []
  {
    s.counter == (counter + |s.drawn|) % U64_MODULUS && Ordered(c, counter, s.drawn)
  }

  lemma OnlyDrawsDraw(c: Config, s: State, a: Action)
    requires Enabled(c, s, a) && !a.Draw?
    ensures Step(c, s, a).drawn == s.drawn && Step(c, s, a).counter == s.counter
  {
  }

  lemma DrawTakesNext(c: Config, s: State, t: nat, pick: nat)
    requires Enabled(c, s, Draw(t, pick)) && !c.generator.random
    ensures Step(c, s, Draw(t, pick)).drawn == s.drawn + [HostRecord(c, Slot(s.counter, |c.generator.hosts|))]
    ensures Step(c, s, Draw(t, pick)).counter == WrapAdd(s.counter)
  {
  }

  lemma InOrderStep(c: Config, counter: u64, s: State, a: Action)
    requires c.generator.hosts != [] && !c.generator.random
    requires InOrder(c, counter, s) && Enabled(c, s, a)
    ensures InOrder(c, counter, Step(c, s, a))
  {
    if a.Draw? {
      DrawTakesNext(c, s, a.t, a.pick);
      hide Step;
      OneMoreDraw(c, counter, s, Step(c, s, a));
    } else {
      OnlyDrawsDraw(c, s, a);
    }
  }

  lemma OneMoreDraw(c: Config, counter: u64, s: State, s': State)
    requires c.generator.hosts != [] && InOrder(c, counter, s)
    requires s'.drawn == s.drawn + [HostRecord(c, Slot(s.counter, |c.generator.hosts|))]
    requires s'.counter == WrapAdd(s.counter)
    ensures InOrder(c, counter, s')
  {
    hide Slot, Ordered, HostRecord;
    WrapSubUndoesAdd(counter + |s.drawn|);
    ExtendOrder(c, counter, s.drawn, Slot(s.counter, |c.generator.hosts|));
  }

  lemma ExtendOrder(c: Config, counter: u64, drawn: seq<DnsRecord>, i: nat)
    requires c.generator.hosts != [] && Ordered(c, counter, drawn)
    requires i == DrawIndex(counter, |drawn|, |c.generator.hosts|)
    ensures Ordered(c, counter, drawn + [HostRecord(c, i)])
  {
    hide DrawIndex, HostRecord;
  }

  /** Sequential mode: whatever the interleaving, tasks draw the hosts in
      order, each position once, wrapping with the 64-bit counter. */
  lemma {:induction false} DrawsInOrder(c: Config, zone: Zone, counter: u64, acts: seq<Action>)
    requires c.generator.hosts != [] && !c.generator.random
    ensures InOrder(c, counter, After(c, Init(c, zone, counter), acts))
  {
    if acts != [] {
      var n := |acts| - 1;
      DrawsInOrder(c, zone, counter, acts[..n]);
      var s := After(c, Init(c, zone, counter), acts[..n]);
      hide Step, Enabled, InOrder;
      if Enabled(c, s, acts[n]) {
        InOrderStep(c, counter, s, acts[n]);
      }
    }
  }

  lemma HostRecordInjective(c: Config, i: nat, j: nat)
    requires ValidGenerator(c.generator)
    requires i < |c.generator.hosts| && j < |c.generator.hosts|
    ensures HostRecord(c, i) == HostRecord(c, j) ==> i == j
  {
    var x, y := HostRecord(c, i), HostRecord(c, j);
    if x == y {
      assert x.ip == c.generator.hosts[i] && y.ip == c.generator.hosts[j];
    }
  }

  lemma {:induction false} DrawnHits(c: Config, drawn: seq<DnsRecord>, counter: u64, i: nat)
    requires ValidGenerator(c.generator) && i < |c.generator.hosts|
    requires Ordered(c, counter, drawn)
    ensures multiset(drawn)[HostRecord(c, i)] == Hits(counter, |drawn|, |c.generator.hosts|, i)
  {
    hide HostRecord, DrawIndex;
    if drawn != [] {
      var n := |drawn| - 1;
      DrawnHits(c, drawn[..n], counter, i);
      HostRecordInjective(c, i, DrawIndex(counter, n, |c.generator.hosts|));
      assert drawn == drawn[..n] + [drawn[n]];
    }
  }

  /** In a run that starts where the counter will not wrap, every host is
      drawn floor(n/h) or ceil(n/h) times, whatever the interleaving. */
  lemma DrawsBalanced(c: Config, zone: Zone, counter: u64, acts: seq<Action>, i: nat)
    requires ValidGenerator(c.generator) && !c.generator.random && i < |c.generator.hosts|
    requires counter + |After(c, Init(c, zone, counter), acts).drawn| <= U64_MODULUS
    ensures var s := After(c, Init(c, zone, counter), acts);
      var n, h := |s.drawn|, |c.generator.hosts|;
      n / h <= multiset(s.drawn)[HostRecord(c, i)] <= n / h + (if n % h == 0 then 0 else 1)
  {
    DrawsInOrder(c, zone, counter, acts);
    var s := After(c, Init(c, zone, counter), acts);
    DrawnHits(c, s.drawn, counter, i);
    BalancedDraws(counter, |s.drawn|, |c.generator.hosts|, i);
  }

  lemma ShiftedIndex(counter: u64, j: nat, k: nat, h: nat)
    requires h > 0 && counter + j < U64_MODULUS
    ensures DrawIndex(counter, j + k, h) == DrawIndex(counter + j, k, h)
  {
  }

  lemma TurnOrdered(c: Config, counter: u64, drawn: seq<DnsRecord>, j: nat, n: nat)
    requires c.generator.hosts != [] && Ordered(c, counter, drawn)
    requires j + n <= |drawn| && counter + j < U64_MODULUS
    ensures Ordered(c, counter + j, drawn[j..j + n])
  {
    var h := |c.generator.hosts|;
    hide HostRecord, DrawIndex;
    var turn := drawn[j..j + n];
    forall k | 0 <= k < n
      ensures turn[k] == HostRecord(c, DrawIndex(counter + j, k, h))
    {
      ShiftedIndex(counter, j, k, h);
      assert turn[k] == drawn[j + k];
    }
  }

  lemma TurnHitsOnce(c: Config, counter: u64, turn: seq<DnsRecord>, i: nat)
    requires ValidGenerator(c.generator) && i < |c.generator.hosts| == |turn|
    requires counter + |turn| <= U64_MODULUS && Ordered(c, counter, turn)
    ensures multiset(turn)[HostRecord(c, i)] == 1
  {
    hide HostRecord, Ordered, Hits;
    DrawnHits(c, turn, counter, i);
    FullTurn(counter, |turn|, i);
  }

  /** Any h consecutive draws of a run, by whichever tasks, cover every host
      exactly once, until the counter wraps. */
  lemma TurnCoversHosts(c: Config, zone: Zone, counter: u64, acts: seq<Action>, j: nat, i: nat)
    requires ValidGenerator(c.generator) && !c.generator.random && i < |c.generator.hosts|
    requires j + |c.generator.hosts| <= |After(c, Init(c, zone, counter), acts).drawn|
    requires counter + j + |c.generator.hosts| <= U64_MODULUS
    ensures var turn := After(c, Init(c, zone, counter), acts).drawn[j..j + |c.generator.hosts|];
      multiset(turn)[HostRecord(c, i)] == 1
  {
    hide After, Init, HostRecord, Ordered, ValidGenerator;
    DrawsInOrder(c, zone, counter, acts);
    var drawn, h := After(c, Init(c, zone, counter), acts).drawn, |c.generator.hosts|;
    TurnOrdered(c, counter, drawn, j, h);
    TurnHitsOnce(c, counter + j, drawn[j..j + h], i);
  }

  // ── Random draws ─────────────────────────────────────────────────────────

  /** What the random source gave at each effective draw of a schedule. */
  function Picks(c: Config, s: State, acts: seq<Action>): (ps: seq<nat>)
    ensures forall p :: p in ps ==> p < |c.generator.hosts|
  {
    if acts == [] then []
    else
      var s', a := After(c, s, acts[..|acts| - 1]), acts[|acts| - 1];
      Picks(c, s, acts[..|acts| - 1]) + (if a.Draw? && Enabled(c, s', a) then [a.pick] else [])
  }

  lemma RandomDraw(c: Config, s: State, t: nat, pick: nat)
    requires Enabled(c, s, Draw(t, pick)) && c.generator.random
    ensures Step(c, s, Draw(t, pick)).drawn == s.drawn + [HostRecord(c, pick)]
    ensures Step(c, s, Draw(t, pick)).counter == s.counter
  {
  }

  ghost predicate Picked(c: Config, drawn: seq<DnsRecord>, ps: seq<nat>) {
    |drawn| == |ps| && forall j :: 0 <= j < |ps| ==> ps[j] < |c.generator.hosts| && drawn[j] == HostRecord(c, ps[j])
  }

  /** Random mode: the j-th record is the host the j-th pick points at, and the
      shared counter never moves. */
  lemma {:induction false} DrawsAsPicked(c: Config, zone: Zone, counter: u64, acts: seq<Action>)
    requires c.generator.random
    ensures var s := After(c, Init(c, zone, counter), acts);
      s.counter == counter && Picked(c, s.drawn, Picks(c, Init(c, zone, counter), acts))
  {
    if acts != [] {
      var n := |acts| - 1;
      DrawsAsPicked(c, zone, counter, acts[..n]);
      var s := After(c, Init(c, zone, counter), acts[..n]);
      hide Step, HostRecord, Init;
      if Enabled(c, s, acts[n]) {
        if acts[n].Draw? {
          RandomDraw(c, s, acts[n].t, acts[n].pick);
        } else {
          OnlyDrawsDraw(c, s, acts[n]);
        }
      }
    }
  }

  // ── Fault-free runs ──────────────────────────────────────────────────────

  predicate StepFaultFree(c: Config, s: State, a: Action) {
    Enabled(c, s, a) ==>
      match a
      case Connect(_, failure) => failure.None?
      case Exchange(t, v) => Succeeds(s.tasks[t].leg, v)
      case _ => true
  }

  /** Every client opens and every exchange gets an answer its leg accepts. */
  predicate FaultFree(c: Config, s: State, acts: seq<Action>) {
    acts == [] ||
    (FaultFree(c, s, acts[..|acts| - 1]) && StepFaultFree(c, After(c, s, acts[..|acts| - 1]), acts[|acts| - 1]))
  }

  lemma {:induction false} NoFailures(c: Config, zone: Zone, counter: u64, acts: seq<Action>)
    requires FaultFree(c, Init(c, zone, counter), acts)
    ensures After(c, Init(c, zone, counter), acts).failed == []
  {
    if acts != [] {
      var n := |acts| - 1;
      var a := acts[n];
      NoFailures(c, zone, counter, acts[..n]);
      var s := After(c, Init(c, zone, counter), acts[..n]);
      hide Init;
      if Enabled(c, s, a) {
        match a {
          case Connect(t, failure) => ConnectEffect(c, s, t, failure);
          case Exchange(t, v) => ExchangeEffect(c, s, t, v);
          case _ =>
        }
      }
    }
  }

  /** A fault-free run, joined and collected. */
  ghost predicate GoodRun(c: Config, z0: Zone, counter: u64, acts: seq<Action>) {
    && Conforming(c, Init(c, z0, counter), acts)
    && FaultFree(c, Init(c, z0, counter), acts)
    && Finished(After(c, Init(c, z0, counter), acts))
  }

  lemma SmallIndex(j: nat, h: nat)
    requires h > 0
    ensures DrawIndex(0, j, h) <= j
    ensures j < h <= U64_MODULUS ==> DrawIndex(0, j, h) == j
  {
    ModAtMost(j, U64_MODULUS);
    ModAtMost(j % U64_MODULUS, h);
  }

  lemma ModAtMost(j: nat, m: nat)
    requires m > 0
    ensures j % m <= j && (j < m ==> j % m == j)
  {
    var q, r := DivMod(j, m);
    MulNonNegative(q, m);
    if j < m {
      DivModUnique(j, m, 0, j);
    }
  }

  lemma DrawnHosts(c: Config, z0: Zone, acts: seq<Action>, i: nat)
    requires ValidGenerator(c.generator) && !c.generator.random && i < |c.generator.hosts|
    ensures var s := After(c, Init(c, z0, 0), acts); HostRecord(c, i) in s.drawn <==> i < |s.drawn|
  {
    DrawsInOrder(c, z0, 0, acts);
    var s := After(c, Init(c, z0, 0), acts);
    var h := |c.generator.hosts|;
    hide After, Init;
    if i < |s.drawn| {
      SmallIndex(i, h);
      assert s.drawn[i] == HostRecord(c, i);
    }
    if HostRecord(c, i) in s.drawn {
      var j :| 0 <= j < |s.drawn| && s.drawn[j] == HostRecord(c, i);
      SmallIndex(j, h);
      HostRecordInjective(c, i, DrawIndex(0, j, h));
    }
  }

  lemma OwnHost(c: Config, z0: Zone, counter: u64, acts: seq<Action>, i: nat)
    requires i < |c.generator.hosts|
    ensures var s := After(c, Init(c, z0, counter), acts);
      Owned(c, s.drawn, AKey(HostRecord(c, i).hostname)) <==> HostRecord(c, i) in s.drawn
  {
    AlwaysTracked(c, z0, counter, acts);
    var s := After(c, Init(c, z0, counter), acts);
    var k := AKey(HostRecord(c, i).hostname);
    hide After, Init, MakeRecord;
    assert k in Keys(c, HostRecord(c, i));
    if Owned(c, s.drawn, k) {
      var r :| r in s.drawn && k in Keys(c, r);
      assert HostRecord(c, i) == MakeRecord(c.generator, HostRecord(c, i).ip) by { HostRecordGenuine(c, i); }
      KeyFixesRecord(c, r, HostRecord(c, i), k);
    }
  }

  lemma HostRecordGenuine(c: Config, i: nat)
    requires i < |c.generator.hosts|
    ensures HostRecord(c, i) == MakeRecord(c.generator, HostRecord(c, i).ip)
  {
  }

  /** Add-only accumulation. Sequential mode without deletes from a fresh
      counter, whatever the limit, the pool, the interleaving and the moment of
      a cancel: if N tickets were granted, exactly the first min(N, H) hosts
      that had no A RRset end with one, holding their own address, and all N
      requests count as successes although revisits are answered YXRRSET. */
  lemma AddOnlyAccumulates(c: Config, z0: Zone, acts: seq<Action>, report: Stats.RunReport, i: nat)
    requires ValidGenerator(c.generator) && !c.generator.random && !c.shape.includeDelete
    requires GoodRun(c, z0, 0, acts) && i < |c.generator.hosts|
    requires Stats.Summarises(After(c, Init(c, z0, 0), acts).received, report)
    ensures var s, k := After(c, Init(c, z0, 0), acts), AKey(HostRecord(c, i).hostname);
      && report.totalOk == s.accepted && report.totalErr == 0
      && (k !in z0 ==>
            if i < s.accepted then k in s.zone && s.zone[k] == {Address(c.generator.hosts[i])} else k !in s.zone)
  {
    var s := After(c, Init(c, z0, 0), acts);
    var r := HostRecord(c, i);
    var k := AKey(r.hostname);
    NoFailures(c, z0, 0, acts);
    EngineTickets.FinalReport(c, z0, 0, acts, report);
    AddOnlyRun(c, z0, 0, acts, report);
    DrawnHosts(c, z0, acts, i);
    OwnHost(c, z0, 0, acts, i);
    assert k in Keys(c, r);
    assert i < s.accepted && k !in z0 ==> r in s.drawn && s.zone[k] == DataOf(r, k);
  }

  /** With --requests N, a nonempty pool for which N plus its size fits the
      counter, and no cancel, N is the number asked for. */
  lemma AddOnlyRequests(c: Config, z0: Zone, acts: seq<Action>, report: Stats.RunReport, i: nat)
    requires ValidGenerator(c.generator) && !c.generator.random && !c.shape.includeDelete
    requires i < |c.generator.hosts|
    requires c.requests.Some? && c.concurrency >= 1 && c.requests.value + c.concurrency <= U64_MODULUS
    requires GoodRun(c, z0, 0, acts) && !After(c, Init(c, z0, 0), acts).cancel
    requires Stats.Summarises(After(c, Init(c, z0, 0), acts).received, report)
    ensures report.totalOk == c.requests.value && report.totalErr == 0
    ensures var k := AKey(HostRecord(c, i).hostname);
      k !in z0 ==> (k in After(c, Init(c, z0, 0), acts).zone <==> i < c.requests.value)
  {
    EngineTickets.PoolGrantsAll(c, z0, 0, acts);
    AddOnlyAccumulates(c, z0, acts, report, i);
  }

  lemma SameDraws(c: Config, z0: Zone, counter: u64, xs: seq<Action>, ys: seq<Action>)
    requires c.generator.hosts != [] && !c.generator.random
    requires |After(c, Init(c, z0, counter), xs).drawn| == |After(c, Init(c, z0, counter), ys).drawn|
    ensures After(c, Init(c, z0, counter), xs).drawn == After(c, Init(c, z0, counter), ys).drawn
  {
    DrawsInOrder(c, z0, counter, xs);
    DrawsInOrder(c, z0, counter, ys);
  }

  /** Interleaving independence: two fault-free sequential runs that granted
      the same number of tickets leave the same zone, with or without deletes,
      whatever the number and order of their tasks' steps. */
  lemma FinalZoneIsDetermined(c: Config, z0: Zone, counter: u64, xs: seq<Action>, ys: seq<Action>)
    requires c.generator.hosts != [] && !c.generator.random
    requires GoodRun(c, z0, counter, xs) && GoodRun(c, z0, counter, ys)
    requires After(c, Init(c, z0, counter), xs).accepted == After(c, Init(c, z0, counter), ys).accepted
    ensures After(c, Init(c, z0, counter), xs).zone == After(c, Init(c, z0, counter), ys).zone
  {
    var s, s' := After(c, Init(c, z0, counter), xs), After(c, Init(c, z0, counter), ys);
    EngineTickets.Conservation(c, z0, counter, xs);
    EngineTickets.Conservation(c, z0, counter, ys);
    EngineTickets.FinishedCounts(c, s);
    EngineTickets.FinishedCounts(c, s');
    SameDraws(c, z0, counter, xs, ys);
    forall k
      ensures SameAt(s.zone, s'.zone, k)
    {
      AgreeAt(c, z0, counter, xs, ys, k);
    }
    SameEverywhere(s.zone, s'.zone);
  }

  lemma AgreeAt(c: Config, z0: Zone, counter: u64, xs: seq<Action>, ys: seq<Action>, k: Key)
    requires GoodRun(c, z0, counter, xs) && GoodRun(c, z0, counter, ys)
    requires After(c, Init(c, z0, counter), xs).drawn == After(c, Init(c, z0, counter), ys).drawn
    ensures SameAt(After(c, Init(c, z0, counter), xs).zone, After(c, Init(c, z0, counter), ys).zone, k)
  {
    ZoneAtEnd(c, z0, counter, xs, k);
    ZoneAtEnd(c, z0, counter, ys, k);
    var drawn := After(c, Init(c, z0, counter), xs).drawn;
    hide After, Init, Keys, DataOf;
    if Owned(c, drawn, k) {
      var r :| r in drawn && k in Keys(c, r);
    }
  }

  /** What a fault-free finished run leaves under one key. */
  lemma ZoneAtEnd(c: Config, z0: Zone, counter: u64, acts: seq<Action>, k: Key)
    requires GoodRun(c, z0, counter, acts)
    ensures var s := After(c, Init(c, z0, counter), acts);
      && (!Owned(c, s.drawn, k) || (k in z0 && !c.shape.includeDelete) ==> SameAt(s.zone, z0, k))
      && (Owned(c, s.drawn, k) && c.shape.includeDelete ==> k !in s.zone)
      && (Owned(c, s.drawn, k) && !c.shape.includeDelete ==> k in s.zone)
      && (forall r :: r in s.drawn && k in Keys(c, r) && k in s.zone && k !in z0 && !c.shape.includeDelete ==>
            s.zone[k] == DataOf(r, k))
  {
    var s := After(c, Init(c, z0, counter), acts);
    NoFailures(c, z0, counter, acts);
    if c.shape.includeDelete {
      LeftoversFailed(c, z0, counter, acts, k);
    } else {
      AlwaysTracked(c, z0, counter, acts);
      AlwaysFaithful(c, z0, counter, acts);
      AlwaysFilled(c, z0, counter, acts);
      assert !CreatePending(c, s, k);
    }
  }
}
