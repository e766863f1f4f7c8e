/** Runs without deletes: what accumulates in the zone, and in which order
    hosts are drawn. */
module EngineAccumulation {
  import opened Prelude
  import opened Names
  import opened Records
  import opened Update
  import opened Transaction
  import opened Engine
  import opened EngineZone
  import EngineTickets
  import Stats

  /** The RRset a record's transaction creates under one of its keys. */
  function DataOf(r: DnsRecord, k: Key): set<RData> {
    if k.rrtype == A then {Address(r.ip)} else {Target(r.hostname)}
  }

  /** Distinct addresses never share a key. */
  lemma KeyFixesRecord(c: Config, r: DnsRecord, q: DnsRecord, k: Key)
    requires r == MakeRecord(c.generator, r.ip) && q == MakeRecord(c.generator, q.ip)
    requires k in Keys(c, r) && k in Keys(c, q)
    ensures r == q
  {
    HostnameInjective(c.generator.prefix, c.generator.zone, r.ip, q.ip);
    PtrNameInjective(r.ip, q.ip);
  }

  predicate WillCreate(c: Config, pc: Pc, k: Key) {
    match pc
    case Connecting(r) => k in Keys(c, r)
    case Sending(r, leg) => k in ToAdd(c.shape, r.hostname, r.ip, leg)
    case _ => false
  }

  ghost predicate CreatePending(c: Config, s: State, k: Key) {
    exists t :: 0 <= t < |s.tasks| && WillCreate(c, s.tasks[t], k)
  }

  /** What was there stays as it was. */
  ghost predicate Preserved(z0: Zone, s: State) {
    forall k :: k in z0 ==> SameAt(s.zone, z0, k)
  }

  /** New RRsets hold their own record's data. */
  ghost predicate Faithful(c: Config, z0: Zone, s: State) {
    forall r, k :: r in s.drawn && k in Keys(c, r) && k in s.zone && k !in z0 ==> s.zone[k] == DataOf(r, k)
  }

  /** A drawn RRset is present, about to be created, or belongs to a failure. */
  ghost predicate Filled(c: Config, s: State) {
    forall k :: Owned(c, s.drawn, k) ==> k in s.zone || CreatePending(c, s, k) || Owned(c, s.failed, k)
  }

  /** A create of one of this record's keys carries this record's data. */
  lemma CreateIsFaithful(c: Config, r: DnsRecord, leg: Leg)
    requires LegFits(c.shape, leg) && !c.shape.includeDelete
    ensures var m := MessageOf(r, leg); m.Create? && m.key in Keys(c, r) && {m.data} == DataOf(r, m.key)
  {
  }

  lemma ApplyKeepsFaithful(c: Config, z0: Zone, s: State, zone': Zone, r: DnsRecord, leg: Leg)
    requires Traced(c, s) && Preserved(z0, s) && Faithful(c, z0, s) && !c.shape.includeDelete
    requires r in s.drawn && LegFits(c.shape, leg)
    requires zone' == s.zone || zone' == Apply(s.zone, MessageOf(r, leg))
    ensures Preserved(z0, s.(zone := zone')) && Faithful(c, z0, s.(zone := zone'))
  {
    var m := MessageOf(r, leg);
    CreateIsFaithful(c, r, leg);
    hide Keys, MessageOf, LegFits, DataOf;
    forall q, k | q in s.drawn && k in Keys(c, q) && k in zone' && k !in z0
      ensures zone'[k] == DataOf(q, k)
    {
      if k == m.key && k !in s.zone {
        KeyFixesRecord(c, r, q, k);
      }
    }
  }

  lemma DrawKeepsFaithful(c: Config, z0: Zone, s: State, t: nat, pick: nat)
    requires Tracked(c, z0, s) && Faithful(c, z0, s) && Enabled(c, s, Draw(t, pick))
    ensures Faithful(c, z0, Step(c, s, Draw(t, pick)))
  {
    DrawEffect(c, s, t, pick);
    var s' := Step(c, s, Draw(t, pick));
    var r := s'.tasks[t].rec;
    hide Step, Enabled, MakeRecord, DataOf, Keys;
    forall q, k | q in s'.drawn && k in Keys(c, q) && k in s'.zone && k !in z0
      ensures s'.zone[k] == DataOf(q, k)
    {
      if q !in s.drawn {
        assert !SameAt(s.zone, z0, k);
        assert Owned(c, s.drawn, k);
        var p :| p in s.drawn && k in Keys(c, p);
        KeyFixesRecord(c, p, q, k);
      }
    }
  }

  lemma FaithfulStep(c: Config, z0: Zone, s: State, a: Action)
    requires Tracked(c, z0, s) && Preserved(z0, s) && Faithful(c, z0, s)
    requires !c.shape.includeDelete && Enabled(c, s, a)
    ensures Preserved(z0, Step(c, s, a)) && Faithful(c, z0, Step(c, s, a))
  {
    hide Step, Keys, DataOf, Succeeds;
    match a {
      case Draw(t, pick) =>
        DrawEffect(c, s, t, pick);
        DrawKeepsFaithful(c, z0, s, t, pick);
      case Connect(t, failure) => ConnectEffect(c, s, t, failure);
      case Exchange(t, v) =>
        ExchangeEffect(c, s, t, v);
        assert Fits(c, s.drawn, s.tasks[t]);
        ApplyKeepsFaithful(c, z0, s, Step(c, s, a).zone, s.tasks[t].rec, s.tasks[t].leg);
      case Deliver(m) =>
        DeliverEffect(c, s, m);
        var r, leg :| r in s.failed && LegFits(c.shape, leg) && m == MessageOf(r, leg);
        ApplyKeepsFaithful(c, z0, s, Apply(s.zone, m), r, leg);
      case _ => QuietEffect(c, s, a);
    }
  }

  /** Against any server at all, a run without deletes never changes an RRset
      that was there, and never writes anything but a record's own data. */
  lemma {:induction false} AlwaysFaithful(c: Config, z0: Zone, counter: u64, acts: seq<Action>)
    requires !c.shape.includeDelete
    ensures var s := After(c, Init(c, z0, counter), acts); Preserved(z0, s) && Faithful(c, z0, s)
  {
    if acts != [] {
      var n := |acts| - 1;
      AlwaysFaithful(c, z0, counter, acts[..n]);
      AlwaysTracked(c, z0, counter, acts[..n]);
      var s := After(c, Init(c, z0, counter), acts[..n]);
      hide Step, Enabled, Preserved, Faithful, Tracked;
      if Enabled(c, s, acts[n]) {
        FaithfulStep(c, z0, s, acts[n]);
      }
    }
  }

  // ── Nothing drawn is missing, failures apart ─────────────────────────────

  lemma CreateKept(c: Config, s: State, s': State, k: Key)
    requires CreatePending(c, s, k) && |s.tasks| == |s'.tasks|
    requires forall u :: 0 <= u < |s.tasks| && WillCreate(c, s.tasks[u], k) ==> WillCreate(c, s'.tasks[u], k)
    ensures CreatePending(c, s', k)
  {
    var u :| 0 <= u < |s.tasks| && WillCreate(c, s.tasks[u], k);
    assert WillCreate(c, s'.tasks[u], k);
  }

  /** An accepted create leaves its RRset present; the others are still to come. */
  lemma LegFills(c: Config, zone: Zone, r: DnsRecord, leg: Leg, v: Verdict, k: Key)
    requires !c.shape.includeDelete && LegFits(c.shape, leg) && Succeeds(leg, v)
    requires Conforms(zone, MessageOf(r, leg), v)
    requires k in ToAdd(c.shape, r.hostname, r.ip, leg)
    ensures k in ZoneAfter(zone, MessageOf(r, leg), v)
      || (NextLeg(c.shape, leg).Some? && k in ToAdd(c.shape, r.hostname, r.ip, NextLeg(c.shape, leg).value))
  {
    AcceptedLeg(zone, r.hostname, r.ip, leg, v);
    ApplyOnce(zone, MessageOf(r, leg));
  }

  lemma ZoneOnlyGrows(c: Config, s: State, t: nat, v: Verdict)
    requires Traced(c, s) && !c.shape.includeDelete && Enabled(c, s, Exchange(t, v))
    ensures forall k :: k in s.zone ==> k in Step(c, s, Exchange(t, v)).zone
  {
    ExchangeEffect(c, s, t, v);
    assert Fits(c, s.drawn, s.tasks[t]);
    CreateIsFaithful(c, s.tasks[t].rec, s.tasks[t].leg);
  }

  lemma ExchangeFills(c: Config, s: State, t: nat, v: Verdict, k: Key)
    requires Filled(c, s) && Traced(c, s) && !c.shape.includeDelete
    requires Enabled(c, s, Exchange(t, v)) && StepConforms(c, s, Exchange(t, v))
    requires Owned(c, s.drawn, k)
    ensures var s' := Step(c, s, Exchange(t, v)); k in s'.zone || CreatePending(c, s', k) || Owned(c, s'.failed, k)
  {
    var r, leg := s.tasks[t].rec, s.tasks[t].leg;
    var s' := Step(c, s, Exchange(t, v));
    ExchangeEffect(c, s, t, v);
    ZoneOnlyGrows(c, s, t, v);
    assert Fits(c, s.drawn, s.tasks[t]);
    OwnedGrows(c, s.failed, r);
    var mine := k in ToAdd(c.shape, r.hostname, r.ip, leg);
    if mine && Succeeds(leg, v) {
      LegFills(c, s.zone, r, leg, v, k);
      assert k !in s'.zone ==> WillCreate(c, s'.tasks[t], k);
    } else if mine {
      assert k in Keys(c, r);
    } else {
      hide Step, Owned, NextLeg, Accepts, MessageOf, Conforms, ToAdd, StepConforms;
      if CreatePending(c, s, k) {
        CreateKept(c, s, s', k);
      }
    }
  }

  lemma DrawOrConnectFills(c: Config, s: State, a: Action, k: Key)
    requires Filled(c, s) && Enabled(c, s, a) && (a.Draw? || a.Connect?)
    requires Owned(c, Step(c, s, a).drawn, k)
    ensures var s' := Step(c, s, a); k in s'.zone || CreatePending(c, s', k) || Owned(c, s'.failed, k)
  {
    var s' := Step(c, s, a);
    if a.Draw? {
      DrawEffect(c, s, a.t, a.pick);
      OwnedGrows(c, s.drawn, s'.tasks[a.t].rec);
    } else {
      ConnectEffect(c, s, a.t, a.failure);
      OwnedGrows(c, s.failed, s.tasks[a.t].rec);
    }
    hide Step, Owned;
    if CarriesRecord(s'.tasks[a.t]) && k in Keys(c, s'.tasks[a.t].rec) {
      assert WillCreate(c, s'.tasks[a.t], k);
    } else if CreatePending(c, s, k) && !Owned(c, s'.failed, k) {
      CreateKept(c, s, s', k);
    }
  }

  lemma FilledStep(c: Config, s: State, a: Action)
    requires Filled(c, s) && Traced(c, s) && StraysFailed(c, s) && !c.shape.includeDelete
    requires Enabled(c, s, a) && StepConforms(c, s, a)
    ensures Filled(c, Step(c, s, a))
  {
    var s' := Step(c, s, a);
    match a {
      case Draw(t, pick) => DrawEffect(c, s, t, pick);
      case Connect(t, failure) => ConnectEffect(c, s, t, failure);
      case Exchange(t, v) => ExchangeEffect(c, s, t, v);
      case Deliver(m) =>
        DeliverEffect(c, s, m);
        var r, leg :| r in s.failed && LegFits(c.shape, leg) && m == MessageOf(r, leg);
        CreateIsFaithful(c, r, leg);
      case _ => QuietEffect(c, s, a);
    }
    hide Step, Owned, Enabled, StepConforms, Keys, Stray;
    forall k | Owned(c, s'.drawn, k)
      ensures k in s'.zone || CreatePending(c, s', k) || Owned(c, s'.failed, k)
    {
      if a.Exchange? {
        ExchangeFills(c, s, a.t, a.v, k);
      } else if a.Draw? || a.Connect? {
        DrawOrConnectFills(c, s, a, k);
      } else if CreatePending(c, s, k) {
        CreateKept(c, s, s', k);
      }
    }
  }

  lemma {:induction false} AlwaysFilled(c: Config, z0: Zone, counter: u64, acts: seq<Action>)
    requires !c.shape.includeDelete && Conforming(c, Init(c, z0, counter), acts)
    ensures Filled(c, After(c, Init(c, z0, counter), acts))
  {
    if acts != [] {
      var n := |acts| - 1;
      AlwaysFilled(c, z0, counter, acts[..n]);
      AlwaysTracked(c, z0, counter, acts[..n]);
      var s := After(c, Init(c, z0, counter), acts[..n]);
      hide Step, Enabled, Filled, Traced, StraysFailed, Untouched, StepConforms;
      if Enabled(c, s, acts[n]) {
        FilledStep(c, s, acts[n]);
      }
    }
  }

  /** At the end of an error-free run without deletes the zone is the one it
      started from plus exactly the drawn records' RRsets: those that were
      there keep their data, the others hold their own record's. */
  lemma AddOnlyRun(c: Config, z0: Zone, counter: u64, acts: seq<Action>, report: Stats.RunReport)
    requires !c.shape.includeDelete && Conforming(c, Init(c, z0, counter), acts)
    requires Finished(After(c, Init(c, z0, counter), acts))
    requires Stats.Summarises(After(c, Init(c, z0, counter), acts).received, report)
    requires report.totalErr == 0
    ensures var s := After(c, Init(c, z0, counter), acts);
      && (forall k :: k in s.zone <==> k in z0 || Owned(c, s.drawn, k))
      && (forall k :: k in z0 ==> s.zone[k] == z0[k])
      && (forall r, k :: r in s.drawn && k in Keys(c, r) && k !in z0 ==> s.zone[k] == DataOf(r, k))
  {
    var s := After(c, Init(c, z0, counter), acts);
    EngineTickets.FinalReport(c, z0, counter, acts, report);
    AlwaysTracked(c, z0, counter, acts);
    AlwaysFaithful(c, z0, counter, acts);
    AlwaysFilled(c, z0, counter, acts);
    hide After, Keys, Step;
    forall k
      ensures k in s.zone <==> k in z0 || Owned(c, s.drawn, k)
    {
      assert !CreatePending(c, s, k);
      if k in z0 || !Owned(c, s.drawn, k) {
        assert SameAt(s.zone, z0, k);
      }
    }
    forall r, k | r in s.drawn && k in Keys(c, r) && k !in z0
      ensures s.zone[k] == DataOf(r, k)
    {
      assert Owned(c, s.drawn, k);
    }
  }
}
