/** What the interleaved transactions do to the zone. */
module EngineZone {
  import opened Prelude
  import opened Records
  import opened Update
  import opened Transaction
  import opened Engine
  import EngineTickets
  import Stats

  /** RRsets a record's transaction may write. */
  function Keys(c: Config, r: DnsRecord): set<Key> {
    TouchedKeys(c.shape, r.hostname, r.ip)
  }

  ghost predicate Owned(c: Config, rs: seq<DnsRecord>, k: Key) {
    exists r :: r in rs && k in Keys(c, r)
  }

  lemma OwnedGrows(c: Config, rs: seq<DnsRecord>, r: DnsRecord)
    ensures forall k :: Owned(c, rs + [r], k) <==> Owned(c, rs, k) || k in Keys(c, r)
  {
    forall k
      ensures Owned(c, rs + [r], k) <==> Owned(c, rs, k) || k in Keys(c, r)
    {
      assert r in rs + [r];
      assert forall x :: x in rs ==> x in rs + [r];
    }
  }

  // ── What one step does, in the terms the proofs below need ───────────────

  predicate Succeeds(leg: Leg, v: Verdict) {
    v.Answered? && Accepts(leg, v.code)
  }

  lemma ExchangeEffect(c: Config, s: State, t: nat, v: Verdict)
    requires Enabled(c, s, Exchange(t, v))
    ensures var s', r, leg := Step(c, s, Exchange(t, v)), s.tasks[t].rec, s.tasks[t].leg;
      && |s'.tasks| == |s.tasks| && (forall u :: 0 <= u < |s.tasks| && u != t ==> s'.tasks[u] == s.tasks[u])
      && s'.drawn == s.drawn
      && s'.zone == ZoneAfter(s.zone, MessageOf(r, leg), v)
      && s'.late == LateAfter(s.late, MessageOf(r, leg), v)
      && s'.failed == (if Succeeds(leg, v) then s.failed else s.failed + [r])
      && s'.tasks[t] == (if !Succeeds(leg, v) then s'.tasks[t]
                         else match NextLeg(c.shape, leg) case None => Reporting(None) case Some(next) => Sending(r, next))
      && (!Succeeds(leg, v) ==> s'.tasks[t].Reporting?)
  {
  }

  predicate CarriesRecord(pc: Pc) {
    pc.Connecting? || pc.Sending?
  }

  predicate IsQuiet(a: Action) {
    !a.Draw? && !a.Connect? && !a.Exchange? && !a.Deliver?
  }

  lemma QuietEffect(c: Config, s: State, a: Action)
    requires Enabled(c, s, a) && IsQuiet(a)
    ensures var s' := Step(c, s, a);
      && |s'.tasks| == |s.tasks|
      && s'.zone == s.zone && s'.late == s.late && s'.drawn == s.drawn && s'.failed == s.failed
      && forall u :: 0 <= u < |s.tasks| ==>
           s'.tasks[u] == s.tasks[u] || (!CarriesRecord(s.tasks[u]) && !CarriesRecord(s'.tasks[u]))
  {
  }

  lemma ConnectEffect(c: Config, s: State, t: nat, failure: Option<Loss>)
    requires Enabled(c, s, Connect(t, failure))
    ensures var s', r := Step(c, s, Connect(t, failure)), s.tasks[t].rec;
      && |s'.tasks| == |s.tasks| && (forall u :: 0 <= u < |s.tasks| && u != t ==> s'.tasks[u] == s.tasks[u])
      && s'.drawn == s.drawn && s'.zone == s.zone && s'.late == s.late
      && s'.failed == (if failure.None? then s.failed else s.failed + [r])
      && (if failure.None? then s'.tasks[t] == Sending(r, AddA) else s'.tasks[t].Reporting?)
  {
  }

  // ── What every run keeps, against any server ─────────────────────────────

  predicate Fits(c: Config, drawn: seq<DnsRecord>, pc: Pc) {
    match pc
    case Connecting(r) => r in drawn
    case Sending(r, leg) => r in drawn && LegFits(c.shape, leg)
    case _ => true
  }

  /** Every record in a transaction, or failed, was drawn from the generator. */
  ghost predicate Traced(c: Config, s: State) {
    && (forall t :: 0 <= t < |s.tasks| ==> Fits(c, s.drawn, s.tasks[t]))
    && (forall r :: r in s.failed ==> r in s.drawn)
    && (forall r :: r in s.drawn ==> r == MakeRecord(c.generator, r.ip))
  }

  ghost predicate Stray(c: Config, failed: seq<DnsRecord>, m: Message) {
    exists r, leg :: r in failed && LegFits(c.shape, leg) && m == MessageOf(r, leg)
  }

  /** A message still on the network was sent by a failed transaction. */
  ghost predicate StraysFailed(c: Config, s: State) {
    forall m :: m in s.late ==> Stray(c, s.failed, m)
  }

  /** RRsets of records never drawn are as they were. */
  ghost predicate Untouched(c: Config, z0: Zone, s: State) {
    forall k :: !Owned(c, s.drawn, k) ==> SameAt(s.zone, z0, k)
  }

  ghost predicate Tracked(c: Config, z0: Zone, s: State) {
    Traced(c, s) && StraysFailed(c, s) && Untouched(c, z0, s)
  }

  lemma MessageKeyOwned(c: Config, rs: seq<DnsRecord>, r: DnsRecord, leg: Leg)
    requires LegFits(c.shape, leg)
    ensures MessageOf(r, leg).key in Keys(c, r)
    ensures r in rs ==> Owned(c, rs, MessageOf(r, leg).key)
  {
  }

  lemma StrayIsOwned(c: Config, failed: seq<DnsRecord>, m: Message)
    requires Stray(c, failed, m)
    ensures Owned(c, failed, m.key)
  {
    var r, leg :| r in failed && LegFits(c.shape, leg) && m == MessageOf(r, leg);
    MessageKeyOwned(c, failed, r, leg);
  }

  lemma OwnedSubset(c: Config, rs: seq<DnsRecord>, qs: seq<DnsRecord>, k: Key)
    requires Owned(c, rs, k) && forall r :: r in rs ==> r in qs
    ensures Owned(c, qs, k)
  {
    var r :| r in rs && k in Keys(c, r);
  }

  lemma StraysKept(c: Config, s: State, failed: seq<DnsRecord>)
    requires StraysFailed(c, s) && s.failed <= failed
    ensures forall m :: m in s.late ==> Stray(c, failed, m)
  {
    forall m | m in s.late
      ensures Stray(c, failed, m)
    {
      var r, leg :| r in s.failed && LegFits(c.shape, leg) && m == MessageOf(r, leg);
      assert r in failed;
    }
  }

  lemma DrawEffect(c: Config, s: State, t: nat, pick: nat)
    requires Enabled(c, s, Draw(t, pick))
    ensures var s' := Step(c, s, Draw(t, pick));
      && |s'.tasks| == |s.tasks| && (forall u :: 0 <= u < |s.tasks| && u != t ==> s'.tasks[u] == s.tasks[u])
      && !CarriesRecord(s.tasks[t]) && s'.tasks[t].Connecting?
      && s'.zone == s.zone && s'.late == s.late && s'.failed == s.failed
      && (var r := s'.tasks[t].rec; s'.drawn == s.drawn + [r] && r == MakeRecord(c.generator, r.ip))
  {
  }

  lemma TracedStep(c: Config, s: State, a: Action)
    requires Traced(c, s) && Enabled(c, s, a)
    ensures Traced(c, Step(c, s, a))
  {
    hide Step, MakeRecord;
    match a {
      case Draw(t, pick) => DrawEffect(c, s, t, pick);
      case Connect(t, failure) =>
        ConnectEffect(c, s, t, failure);
        assert Fits(c, s.drawn, s.tasks[t]);
      case Exchange(t, v) =>
        ExchangeEffect(c, s, t, v);
        assert Fits(c, s.drawn, s.tasks[t]);
      case Deliver(m) => DeliverEffect(c, s, m);
      case _ => QuietEffect(c, s, a);
    }
  }

  lemma DeliverEffect(c: Config, s: State, m: Message)
    requires Enabled(c, s, Deliver(m))
    ensures Step(c, s, Deliver(m)) == s.(zone := Apply(s.zone, m))
  {
  }

  lemma StraysStep(c: Config, s: State, a: Action)
    requires Traced(c, s) && StraysFailed(c, s) && Enabled(c, s, a)
    ensures StraysFailed(c, Step(c, s, a))
  {
    hide Step, Stray, Succeeds;
    var s' := Step(c, s, a);
    match a {
      case Draw(t, pick) => DrawEffect(c, s, t, pick);
      case Connect(t, failure) => ConnectEffect(c, s, t, failure);
      case Exchange(t, v) =>
        ExchangeEffect(c, s, t, v);
        if v.Lost? {
          LostIsStray(c, s, t, v);
        }
      case Deliver(m) => DeliverEffect(c, s, m);
      case _ => QuietEffect(c, s, a);
    }
    StraysKept(c, s, s'.failed);
  }

  lemma LostIsStray(c: Config, s: State, t: nat, v: Verdict)
    requires Traced(c, s) && Enabled(c, s, Exchange(t, v)) && v.Lost?
    ensures Stray(c, Step(c, s, Exchange(t, v)).failed, MessageOf(s.tasks[t].rec, s.tasks[t].leg))
  {
    hide Step;
    ExchangeEffect(c, s, t, v);
    assert Fits(c, s.drawn, s.tasks[t]);
    assert s.tasks[t].rec in Step(c, s, Exchange(t, v)).failed;
  }

  lemma UntouchedStep(c: Config, z0: Zone, s: State, a: Action)
    requires Tracked(c, z0, s) && Enabled(c, s, a)
    ensures Untouched(c, z0, Step(c, s, a))
  {
    hide Step, Stray, Keys;
    match a {
      case Draw(t, pick) =>
        DrawEffect(c, s, t, pick);
        OwnedGrows(c, s.drawn, Step(c, s, a).tasks[t].rec);
      case Connect(t, failure) => ConnectEffect(c, s, t, failure);
      case Exchange(t, v) =>
        ExchangeEffect(c, s, t, v);
        assert Fits(c, s.drawn, s.tasks[t]);
        MessageKeyOwned(c, s.drawn, s.tasks[t].rec, s.tasks[t].leg);
        ApplyOnce(s.zone, MessageOf(s.tasks[t].rec, s.tasks[t].leg));
      case Deliver(m) =>
        DeliverEffect(c, s, m);
        StrayIsOwned(c, s.failed, m);
        OwnedSubset(c, s.failed, s.drawn, m.key);
        ApplyOnce(s.zone, m);
      case _ => QuietEffect(c, s, a);
    }
  }

  lemma {:induction false} AlwaysTracked(c: Config, z0: Zone, counter: u64, acts: seq<Action>)
    ensures Tracked(c, z0, After(c, Init(c, z0, counter), acts))
  {
    if acts != [] {
      var n := |acts| - 1;
      AlwaysTracked(c, z0, counter, acts[..n]);
      var s := After(c, Init(c, z0, counter), acts[..n]);
      hide Step, Enabled, Traced, StraysFailed, Untouched;
      if Enabled(c, s, acts[n]) {
        TracedStep(c, s, acts[n]);
        StraysStep(c, s, acts[n]);
        UntouchedStep(c, z0, s, acts[n]);
      }
    }
  }

  // ── Delete mode: what is left belongs to a failure ───────────────────────

  predicate WillDelete(c: Config, pc: Pc, k: Key) {
    match pc
    case Connecting(r) => k in Keys(c, r)
    case Sending(r, leg) => k in ToDelete(c.shape, r.hostname, r.ip, leg)
    case _ => false
  }

  ghost predicate DeletePending(c: Config, s: State, k: Key) {
    exists t :: 0 <= t < |s.tasks| && WillDelete(c, s.tasks[t], k)
  }

  /** A drawn RRset is present only while some task in flight still has its
      delete to run, or if one of its transactions failed. */
  ghost predicate Cleaned(c: Config, s: State) {
    forall k :: k in s.zone && Owned(c, s.drawn, k) ==> DeletePending(c, s, k) || Owned(c, s.failed, k)
  }

  /** Unless it is the moving task that gives up its delete, a pending delete stays pending. */
  lemma PendingKept(c: Config, s: State, s': State, k: Key)
    requires DeletePending(c, s, k) && |s.tasks| == |s'.tasks|
    requires forall u :: 0 <= u < |s.tasks| && WillDelete(c, s.tasks[u], k) ==> WillDelete(c, s'.tasks[u], k)
    ensures DeletePending(c, s', k)
  {
    var u :| 0 <= u < |s.tasks| && WillDelete(c, s.tasks[u], k);
    assert WillDelete(c, s'.tasks[u], k);
  }

  /** An accepted leg leaves its RRset gone, or still to be deleted by this task. */
  lemma LegCleans(c: Config, zone: Zone, r: DnsRecord, leg: Leg, v: Verdict, k: Key)
    requires c.shape.includeDelete && LegFits(c.shape, leg) && Succeeds(leg, v)
    requires Conforms(zone, MessageOf(r, leg), v)
    requires k in ZoneAfter(zone, MessageOf(r, leg), v)
    requires k == MessageOf(r, leg).key || k in ToDelete(c.shape, r.hostname, r.ip, leg)
    ensures NextLeg(c.shape, leg).Some? && k in ToDelete(c.shape, r.hostname, r.ip, NextLeg(c.shape, leg).value)
  {
    AcceptedLeg(zone, r.hostname, r.ip, leg, v);
    ApplyOnce(zone, MessageOf(r, leg));
  }

  lemma SuccessCleans(c: Config, s: State, t: nat, v: Verdict, k: Key)
    requires Cleaned(c, s) && Traced(c, s) && c.shape.includeDelete
    requires Enabled(c, s, Exchange(t, v)) && StepConforms(c, s, Exchange(t, v))
    requires Succeeds(s.tasks[t].leg, v)
    requires k in Step(c, s, Exchange(t, v)).zone && Owned(c, s.drawn, k)
    ensures var s' := Step(c, s, Exchange(t, v)); DeletePending(c, s', k) || Owned(c, s'.failed, k)
  {
    var r, leg := s.tasks[t].rec, s.tasks[t].leg;
    var s' := Step(c, s, Exchange(t, v));
    ExchangeEffect(c, s, t, v);
    assert Fits(c, s.drawn, s.tasks[t]);
    if k == MessageOf(r, leg).key || k in ToDelete(c.shape, r.hostname, r.ip, leg) {
      LegCleans(c, s.zone, r, leg, v, k);
      assert WillDelete(c, s'.tasks[t], k);
    } else {
      ApplyOnce(s.zone, MessageOf(r, leg));
      hide Step, Apply, NextLeg, Owned, Accepts, MessageOf, Conforms, ToDelete, StepConforms;
      if DeletePending(c, s, k) {
        PendingKept(c, s, s', k);
      }
    }
  }

  lemma FailureCleans(c: Config, s: State, t: nat, v: Verdict, k: Key)
    requires Cleaned(c, s) && Traced(c, s) && Enabled(c, s, Exchange(t, v))
    requires !Succeeds(s.tasks[t].leg, v)
    requires k in Step(c, s, Exchange(t, v)).zone && Owned(c, s.drawn, k)
    ensures var s' := Step(c, s, Exchange(t, v)); DeletePending(c, s', k) || Owned(c, s'.failed, k)
  {
    var r, leg := s.tasks[t].rec, s.tasks[t].leg;
    ExchangeEffect(c, s, t, v);
    assert Fits(c, s.drawn, s.tasks[t]);
    MessageKeyOwned(c, s.drawn, r, leg);
    ApplyOnce(s.zone, MessageOf(r, leg));
    OwnedGrows(c, s.failed, r);
    hide Step, Apply, NextLeg, Owned, Accepts, MessageOf, Conforms;
    if k !in Keys(c, r) && DeletePending(c, s, k) {
      PendingKept(c, s, Step(c, s, Exchange(t, v)), k);
    }
  }

  lemma DrawOrConnectCleans(c: Config, s: State, a: Action, k: Key)
    requires Cleaned(c, s) && Enabled(c, s, a) && (a.Draw? || a.Connect?)
    requires k in s.zone && Owned(c, Step(c, s, a).drawn, k)
    ensures var s' := Step(c, s, a); DeletePending(c, s', k) || Owned(c, s'.failed, k)
  {
    var s' := Step(c, s, a);
    if a.Draw? {
      DrawEffect(c, s, a.t, a.pick);
      OwnedGrows(c, s.drawn, s'.tasks[a.t].rec);
    } else {
      ConnectEffect(c, s, a.t, a.failure);
      OwnedGrows(c, s.failed, s.tasks[a.t].rec);
    }
    hide Step, Owned;
    if CarriesRecord(s'.tasks[a.t]) && k in Keys(c, s'.tasks[a.t].rec) {
      assert WillDelete(c, s'.tasks[a.t], k);
    } else if DeletePending(c, s, k) && !Owned(c, s'.failed, k) {
      PendingKept(c, s, s', k);
    }
  }

  lemma CleanedStep(c: Config, s: State, a: Action)
    requires Cleaned(c, s) && Traced(c, s) && StraysFailed(c, s) && c.shape.includeDelete
    requires Enabled(c, s, a) && StepConforms(c, s, a)
    ensures Cleaned(c, Step(c, s, a))
  {
    var s' := Step(c, s, a);
    match a {
      case Draw(t, pick) => DrawEffect(c, s, t, pick);
      case Connect(t, failure) => ConnectEffect(c, s, t, failure);
      case Exchange(t, v) => ExchangeEffect(c, s, t, v);
      case Deliver(m) =>
        DeliverEffect(c, s, m);
        StrayIsOwned(c, s.failed, m);
        ApplyOnce(s.zone, m);
      case _ => QuietEffect(c, s, a);
    }
    hide Step, Owned, Enabled, Apply, StepConforms;
    forall k | k in s'.zone && Owned(c, s'.drawn, k)
      ensures DeletePending(c, s', k) || Owned(c, s'.failed, k)
    {
      if a.Exchange? && Succeeds(s.tasks[a.t].leg, a.v) {
        SuccessCleans(c, s, a.t, a.v, k);
      } else if a.Exchange? {
        FailureCleans(c, s, a.t, a.v, k);
      } else if a.Draw? || a.Connect? {
        DrawOrConnectCleans(c, s, a, k);
      } else if DeletePending(c, s, k) {
        PendingKept(c, s, s', k);
      }
    }
  }

  /** Concurrent drain, in every state of every interleaving with a
      conforming server and arbitrary refusals, losses and late deliveries. */
  lemma {:induction false} ConcurrentDrain(c: Config, z0: Zone, counter: u64, acts: seq<Action>)
    requires c.shape.includeDelete
    requires Conforming(c, Init(c, z0, counter), acts)
    ensures Cleaned(c, After(c, Init(c, z0, counter), acts))
  {
    if acts != [] {
      var n := |acts| - 1;
      ConcurrentDrain(c, z0, counter, acts[..n]);
      AlwaysTracked(c, z0, counter, acts[..n]);
      var s := After(c, Init(c, z0, counter), acts[..n]);
      hide Step, Enabled, Cleaned, Traced, StraysFailed, Untouched, StepConforms;
      if Enabled(c, s, acts[n]) {
        CleanedStep(c, s, acts[n]);
      }
    }
  }

  // ── At the end of a run with deletes ─────────────────────────────────────

  lemma NothingPending(c: Config, s: State, k: Key)
    requires AllExited(s)
    ensures !DeletePending(c, s, k)
  {
  }

  /** Once all tasks have exited, a drawn RRset that is still there belongs to
      a failed transaction, and every other RRset is as it was. */
  lemma LeftoversFailed(c: Config, z0: Zone, counter: u64, acts: seq<Action>, k: Key)
    requires c.shape.includeDelete && Conforming(c, Init(c, z0, counter), acts)
    requires AllExited(After(c, Init(c, z0, counter), acts))
    ensures var s := After(c, Init(c, z0, counter), acts);
      && (Owned(c, s.drawn, k) && k in s.zone ==> Owned(c, s.failed, k))
      && (!Owned(c, s.drawn, k) ==> SameAt(s.zone, z0, k))
  {
    ConcurrentDrain(c, z0, counter, acts);
    AlwaysTracked(c, z0, counter, acts);
    NothingPending(c, After(c, Init(c, z0, counter), acts), k);
  }

  /** The drawn RRsets of one type still in the zone. */
  ghost function Leaked(c: Config, s: State, rrtype: RrType): set<Key> {
    set k | k in s.zone && k.rrtype == rrtype && Owned(c, s.drawn, k)
  }

  function KeyOfType(r: DnsRecord, rrtype: RrType): Key {
    if rrtype == A then AKey(r.hostname) else PtrKey(r.ip)
  }

  lemma {:induction false} KeysAtMostRecords(rs: seq<DnsRecord>, rrtype: RrType, ks: set<Key>)
    requires forall k :: k in ks ==> exists r :: r in rs && k == KeyOfType(r, rrtype)
    ensures |ks| <= |rs|
  {
    if rs == [] {
      assert forall k :: k !in ks;
    } else {
      var n := |rs| - 1;
      var last := KeyOfType(rs[n], rrtype);
      KeysAtMostRecords(rs[..n], rrtype, ks - {last});
      assert ks <= (ks - {last}) + {last};
    }
  }

  /** Leaked A RRsets, and likewise leaked PTR RRsets, are at most the
      failures the final report counts, however messages were lost, refused
      or delivered late. */
  lemma LeakBound(c: Config, z0: Zone, counter: u64, acts: seq<Action>, report: Stats.RunReport, rrtype: RrType)
    requires c.shape.includeDelete && Conforming(c, Init(c, z0, counter), acts)
    requires Finished(After(c, Init(c, z0, counter), acts))
    requires Stats.Summarises(After(c, Init(c, z0, counter), acts).received, report)
    ensures |Leaked(c, After(c, Init(c, z0, counter), acts), rrtype)| <= report.totalErr
  {
    var s := After(c, Init(c, z0, counter), acts);
    EngineTickets.FinalReport(c, z0, counter, acts, report);
    forall k | k in Leaked(c, s, rrtype)
      ensures exists r :: r in s.failed && k == KeyOfType(r, rrtype)
    {
      LeftoversFailed(c, z0, counter, acts, k);
      var r :| r in s.failed && k in Keys(c, r);
    }
    KeysAtMostRecords(s.failed, rrtype, Leaked(c, s, rrtype));
  }

  /** If the report shows no error, the run left the zone exactly as it found
      it, minus whatever was already there under a drawn name. */
  lemma CleanRun(c: Config, z0: Zone, counter: u64, acts: seq<Action>, report: Stats.RunReport)
    requires c.shape.includeDelete && Conforming(c, Init(c, z0, counter), acts)
    requires Finished(After(c, Init(c, z0, counter), acts))
    requires Stats.Summarises(After(c, Init(c, z0, counter), acts).received, report)
    requires report.totalErr == 0
    ensures var s := After(c, Init(c, z0, counter), acts);
      forall k :: if Owned(c, s.drawn, k) then k !in s.zone else SameAt(s.zone, z0, k)
  {
    EngineTickets.FinalReport(c, z0, counter, acts, report);
    forall k
      ensures var s := After(c, Init(c, z0, counter), acts);
        if Owned(c, s.drawn, k) then k !in s.zone else SameAt(s.zone, z0, k)
    {
      LeftoversFailed(c, z0, counter, acts, k);
    }
  }
}
