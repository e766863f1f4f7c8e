/** Tickets, outcomes and failures are conserved by every interleaving. */
module EngineTickets {
  import opened Prelude
  import opened Records
  import opened Update
  import opened Transaction
  import opened Engine
  import Stats

  function Over(pc: Pc): nat { if pc.GivingBack? then 1 else 0 }

  function Holding(pc: Pc): nat {
    if pc.Claimed? || pc.Connecting? || pc.Sending? || pc.Reporting? then 1 else 0
  }

  function Undrawn(pc: Pc): nat { if pc.Claimed? then 1 else 0 }

  function Failing(pc: Pc): nat { if pc.Reporting? && pc.error.Some? then 1 else 0 }

  /** Ticket counter, tickets, draws and failures, each accounted for. */
  ghost predicate Counts(c: Config, s: State) {
    && |s.tasks| == c.concurrency
    && s.sent == (s.accepted + Sum(s.tasks, Over)) % U64_MODULUS
    && s.accepted == Sum(s.tasks, Holding) + |s.channel| + |s.received|
    && |s.drawn| + Sum(s.tasks, Undrawn) == s.accepted
    && |s.failed| == Sum(s.tasks, Failing) + Sum(s.channel, Stats.IsErr) + Sum(s.received, Stats.IsErr)
  }

  lemma Moved(tasks: seq<Pc>, t: nat, pc: Pc)
    requires t < |tasks|
    ensures Sum(tasks[t := pc], Over) + Over(tasks[t]) == Sum(tasks, Over) + Over(pc)
    ensures Sum(tasks[t := pc], Holding) + Holding(tasks[t]) == Sum(tasks, Holding) + Holding(pc)
    ensures Sum(tasks[t := pc], Undrawn) + Undrawn(tasks[t]) == Sum(tasks, Undrawn) + Undrawn(pc)
    ensures Sum(tasks[t := pc], Failing) + Failing(tasks[t]) == Sum(tasks, Failing) + Failing(pc)
  {
    SumUpdate(tasks, t, pc, Over);
    SumUpdate(tasks, t, pc, Holding);
    SumUpdate(tasks, t, pc, Undrawn);
    SumUpdate(tasks, t, pc, Failing);
  }

  lemma CountsInit(c: Config, zone: Zone, counter: u64)
    ensures Counts(c, Init(c, zone, counter))
  {
    var tasks := Init(c, zone, counter).tasks;
    SumZero(tasks, Over);
    SumZero(tasks, Holding);
    SumZero(tasks, Undrawn);
    SumZero(tasks, Failing);
  }

  lemma TicketStep(c: Config, s: State, a: Action)
    requires Counts(c, s) && Enabled(c, s, a) && (a.FetchAdd? || a.GiveBack?)
    ensures Counts(c, Step(c, s, a))
  {
    hide Sum;
    var t := TaskOf(a).value;
    var s' := Step(c, s, a);
    Moved(s.tasks, t, s'.tasks[t]);
    if a.FetchAdd? {
      WrapSubUndoesAdd(s.accepted + Sum(s.tasks, Over));
    } else {
      WrapSubUndoesAdd(s.accepted + Sum(s'.tasks, Over));
    }
  }

  lemma TransactionStep(c: Config, s: State, a: Action)
    requires Counts(c, s) && Enabled(c, s, a)
    requires a.CheckCancel? || a.Draw? || a.Connect? || a.Exchange?
    ensures Counts(c, Step(c, s, a))
  {
    hide Sum, ZoneAfter, LateAfter, Advance, MakeRecord, Slot, Classify;
    var t := TaskOf(a).value;
    var s' := Step(c, s, a);
    assert s'.tasks == s.tasks[t := s'.tasks[t]];
    Moved(s.tasks, t, s'.tasks[t]);
  }

  lemma OutcomeStep(c: Config, s: State, a: Action)
    requires Counts(c, s) && Enabled(c, s, a) && (a.Report? || a.Receive?)
    ensures Counts(c, Step(c, s, a))
  {
    hide Sum;
    if a.Report? {
      Moved(s.tasks, a.t, Checking);
      SumAppend(s.channel, Stats.Outcome(a.latencyUs, s.tasks[a.t].error), Stats.IsErr);
    } else {
      assert s.channel == [s.channel[0]] + s.channel[1..];
      SumConcat([s.channel[0]], s.channel[1..], Stats.IsErr);
      SumSmall(s.channel[0], Stats.IsErr);
      SumAppend(s.received, s.channel[0], Stats.IsErr);
    }
  }

  lemma CountsStep(c: Config, s: State, a: Action)
    requires Counts(c, s) && Enabled(c, s, a)
    ensures Counts(c, Step(c, s, a))
  {
    hide Sum;
    if a.FetchAdd? || a.GiveBack? {
      TicketStep(c, s, a);
    } else if a.Report? || a.Receive? {
      OutcomeStep(c, s, a);
    } else if TaskOf(a).Some? {
      TransactionStep(c, s, a);
    }
  }

  /** Conservation, in every state of every interleaving and against any
      server: the ticket counter is the tickets granted plus the tasks about
      to give one back; every ticket is held by a task, queued as an outcome
      or folded into the report; every failure is one failed outcome. */
  lemma {:induction false} Conservation(c: Config, zone: Zone, counter: u64, acts: seq<Action>)
    ensures Counts(c, After(c, Init(c, zone, counter), acts))
  {
    hide Sum;
    if acts == [] {
      CountsInit(c, zone, counter);
    } else {
      var n := |acts| - 1;
      Conservation(c, zone, counter, acts[..n]);
      var s := After(c, Init(c, zone, counter), acts[..n]);
      if Enabled(c, s, acts[n]) {
        CountsStep(c, s, acts[n]);
      }
    }
  }

  lemma FinishedCounts(c: Config, s: State)
    requires Counts(c, s) && Finished(s)
    ensures s.accepted == |s.received| == |s.drawn|
    ensures s.sent == s.accepted % U64_MODULUS
    ensures |s.failed| == Sum(s.received, Stats.IsErr)
  {
    SumZero(s.tasks, Over);
    SumZero(s.tasks, Holding);
    SumZero(s.tasks, Undrawn);
    SumZero(s.tasks, Failing);
    SumZero(s.channel, Stats.IsErr);
  }

  /** Once every task has exited and the collector is done, the report
      accounts for every ticket and every failure, cancelled or not. */
  lemma FinalReport(c: Config, zone: Zone, counter: u64, acts: seq<Action>, r: Stats.RunReport)
    requires Finished(After(c, Init(c, zone, counter), acts))
    requires Stats.Summarises(After(c, Init(c, zone, counter), acts).received, r)
    ensures var s := After(c, Init(c, zone, counter), acts);
      && r.totalSent == s.accepted == |s.drawn|
      && s.sent == s.accepted % U64_MODULUS
      && r.totalErr == |s.failed|
      && r.totalOk + r.totalErr == r.totalSent
  {
    hide After, Sum;
    Conservation(c, zone, counter, acts);
    FinishedCounts(c, After(c, Init(c, zone, counter), acts));
    Stats.BreakdownComplete(After(c, Init(c, zone, counter), acts).received);
  }

  // ── The ticket limit ─────────────────────────────────────────────────────

  /** The counter cannot wrap past the limit while tasks overshoot. */
  predicate Safe(c: Config) {
    Limit(c) == 0 || Limit(c) + c.concurrency <= U64_MODULUS
  }

  ghost predicate Limited(c: Config, s: State) {
    && s.accepted <= Limit(c)
    && forall t :: 0 <= t < |s.tasks| ==>
      && (s.tasks[t].GivingBack? ==> s.accepted == Limit(c))
      && (s.tasks[t].Exited? ==> s.cancel || s.accepted == Limit(c))
  }

  /** What a task about to claim reads is the number of tickets granted plus
      the overshooting tasks, unwrapped. */
  lemma CounterUnwrapped(c: Config, s: State, t: nat)
    requires Counts(c, s) && Limited(c, s) && Safe(c) && Limit(c) > 0
    requires t < |s.tasks| && s.tasks[t].Claiming?
    ensures s.sent == s.accepted + Sum(s.tasks, Over)
  {
    hide Sum;
    SumUpdate(s.tasks, t, GivingBack, Over);
    SumBound(s.tasks[t := GivingBack], Over, 1);
  }

  lemma LimitedStep(c: Config, s: State, a: Action)
    requires Counts(c, s) && Limited(c, s) && Safe(c) && Enabled(c, s, a)
    ensures Limited(c, Step(c, s, a))
  {
    hide Sum;
    if a.FetchAdd? && Limit(c) > 0 {
      CounterUnwrapped(c, s, a.t);
      if exists u :: 0 <= u < |s.tasks| && s.tasks[u].GivingBack? {
        var u :| 0 <= u < |s.tasks| && s.tasks[u].GivingBack?;
        SumAtLeast(s.tasks, Over, u);
      } else {
        SumZero(s.tasks, Over);
      }
    }
  }

  lemma {:induction false} LimitHolds(c: Config, zone: Zone, counter: u64, acts: seq<Action>)
    requires Safe(c)
    ensures Limited(c, After(c, Init(c, zone, counter), acts))
  {
    hide Sum;
    if acts != [] {
      var n := |acts| - 1;
      LimitHolds(c, zone, counter, acts[..n]);
      Conservation(c, zone, counter, acts[..n]);
      var s := After(c, Init(c, zone, counter), acts[..n]);
      if Enabled(c, s, acts[n]) {
        LimitedStep(c, s, acts[n]);
      }
    }
  }

  /** Without a cancel the pool grants exactly the requested tickets and the
      counter ends on that number. */
  lemma PoolGrantsAll(c: Config, zone: Zone, counter: u64, acts: seq<Action>)
    requires Safe(c) && c.concurrency >= 1
    requires AllExited(After(c, Init(c, zone, counter), acts))
    requires !After(c, Init(c, zone, counter), acts).cancel
    ensures var s := After(c, Init(c, zone, counter), acts); s.accepted == Limit(c) == s.sent
  {
    hide Sum;
    LimitHolds(c, zone, counter, acts);
    Conservation(c, zone, counter, acts);
    var s := After(c, Init(c, zone, counter), acts);
    assert s.tasks[0].Exited?;
    SumZero(s.tasks, Over);
  }

  /** With --requests N exactly N are sent, where N plus the pool size fits the
      counter; without it one worker alone stops after the largest u64. */
  predicate SentAsRequested(c: Config, sent: nat) {
    match c.requests
    case Some(n) => n == 0 || n + c.concurrency <= U64_MODULUS ==> sent == n
    case None => c.concurrency == 1 ==> sent == U64_MODULUS - 1
  }

  lemma AllRequestsSent(c: Config, zone: Zone, counter: u64, acts: seq<Action>)
    requires c.concurrency >= 1
    requires AllExited(After(c, Init(c, zone, counter), acts))
    requires !After(c, Init(c, zone, counter), acts).cancel
    ensures SentAsRequested(c, After(c, Init(c, zone, counter), acts).accepted)
  {
    if Safe(c) {
      PoolGrantsAll(c, zone, counter, acts);
    }
  }

  // ── How many tickets can be granted ──────────────────────────────────────

  /** Gone, or about to go: will never take another ticket. */
  function Spent(pc: Pc): nat { if pc.GivingBack? || pc.Exited? then 1 else 0 }

  /** Workers that must overshoot together to carry the counter once around. */
  function Crowd(c: Config): (g: nat)
    ensures g >= 1
  {
    U64_MODULUS - Limit(c)
  }

  /** Full crowds among n workers. */
  function Crowds(c: Config, n: nat): nat {
    n / Crowd(c)
  }

  /** Workers left over when full crowds are counted off. */
  function Rest(c: Config, n: nat): nat {
    n % Crowd(c)
  }

  /** Most tickets any interleaving grants: the limit, and one more turn of the
      64-bit counter for each crowd the pool can spare, one worker staying
      behind to take the tickets. */
  function MaxGranted(c: Config): nat {
    if Limit(c) == 0 || c.concurrency == 0 then 0
    else Limit(c) + U64_MODULUS * Crowds(c, c.concurrency - 1)
  }

  lemma FewerThanCrowd(n: nat, g: nat)
    requires g >= 1
    ensures n / g == 0 <==> n < g
  {
    if n < g {
      DivModUnique(n, g, 0, n);
    }
  }

  /** In the safe range that is the limit, and only there. */
  lemma SafeMeansNoTurn(c: Config)
    requires c.concurrency >= 1
    ensures Safe(c) <==> MaxGranted(c) == Limit(c)
  {
    FewerThanCrowd(c.concurrency - 1, Crowd(c));
  }

  /** Where the unwrapped counter can stand once n workers are spent. */
  function Level(c: Config, n: nat): nat {
    U64_MODULUS * Crowds(c, n) + Limit(c) + Rest(c, n)
  }

  lemma LevelRises(c: Config, n: nat)
    ensures Level(c, n) + 1 <= Level(c, n + 1)
  {
    var g := Crowd(c);
    var q, r := DivMod(n, g);
    if r + 1 < g {
      DivModUnique(n + 1, g, q, r + 1);
    } else {
      DivModUnique(n + 1, g, q + 1, 0);
    }
  }

  /** A counter value below the limit leaves the level's full turns and limit
      to be reached. */
  lemma BelowLimitIsBelowLevel(c: Config, n: nat, u: nat)
    requires u <= Level(c, n) && u % U64_MODULUS < Limit(c)
    ensures u < U64_MODULUS * Crowds(c, n) + Limit(c)
  {
    var q, r := DivMod(n, Crowd(c));
    if u >= U64_MODULUS * q + Limit(c) {
      DivModUnique(u, U64_MODULUS, q, u - U64_MODULUS * q);
    }
  }

  lemma DivMonotone(a: nat, b: nat, g: nat)
    requires a <= b && g >= 1
    ensures a / g <= b / g
  {
    var q, r := DivMod(a, g);
    var q', r' := DivMod(b, g);
    if q > q' {
      QuotientGap(q, q', r', g);
    }
  }

  /** The unwrapped counter passes the limit once more only after one more
      crowd has overshot. */
  ghost predicate Levelled(c: Config, s: State) {
    && s.accepted + Sum(s.tasks, Over) <= Level(c, Sum(s.tasks, Spent))
    && (s.accepted > 0 ==> s.accepted <= MaxGranted(c))
  }

  lemma OneTaskMoves(c: Config, s: State, a: Action)
    requires Enabled(c, s, a)
    ensures TaskOf(a).None? ==> Step(c, s, a).tasks == s.tasks && Step(c, s, a).accepted == s.accepted
    ensures TaskOf(a).Some? ==>
      var t := TaskOf(a).value;
      t < |s.tasks| == |Step(c, s, a).tasks| && Step(c, s, a).tasks == s.tasks[t := Step(c, s, a).tasks[t]]
  {
    hide ZoneAfter, LateAfter, Advance, MakeRecord, Apply;
  }

  lemma GrantBelowMax(c: Config, s: State, t: nat)
    requires Counts(c, s) && Levelled(c, s) && t < |s.tasks| && s.tasks[t].Claiming? && s.sent < Limit(c)
    ensures s.accepted + 1 <= MaxGranted(c)
    ensures s.accepted + 1 + Sum(s.tasks, Over) <= Level(c, Sum(s.tasks, Spent))
  {
    hide Sum;
    var n := Sum(s.tasks, Spent);
    SumUpdate(s.tasks, t, Exited, Spent);
    SumBound(s.tasks[t := Exited], Spent, 1);
    BelowLimitIsBelowLevel(c, n, s.accepted + Sum(s.tasks, Over));
    DivMonotone(n, c.concurrency - 1, Crowd(c));
    hide Crowd, Limit;
  }

  lemma TicketLevel(c: Config, s: State, a: Action)
    requires Counts(c, s) && Levelled(c, s) && Enabled(c, s, a) && (a.FetchAdd? || a.GiveBack?)
    ensures Levelled(c, Step(c, s, a))
  {
    hide Sum, Level, MaxGranted;
    var t := TaskOf(a).value;
    var pc' := Step(c, s, a).tasks[t];
    Moved(s.tasks, t, pc');
    SumUpdate(s.tasks, t, pc', Spent);
    if pc'.Claimed? {
      GrantBelowMax(c, s, t);
    } else if pc'.GivingBack? {
      LevelRises(c, Sum(s.tasks, Spent));
    }
  }

  lemma OtherLevel(c: Config, s: State, a: Action)
    requires Levelled(c, s) && Enabled(c, s, a) && !a.FetchAdd? && !a.GiveBack?
    ensures Levelled(c, Step(c, s, a))
  {
    hide Sum, Level, MaxGranted, ZoneAfter, LateAfter, Advance, MakeRecord, Apply, Slot;
    OneTaskMoves(c, s, a);
    if TaskOf(a).Some? {
      var t := TaskOf(a).value;
      Moved(s.tasks, t, Step(c, s, a).tasks[t]);
      SumUpdate(s.tasks, t, Step(c, s, a).tasks[t], Spent);
      LevelRises(c, Sum(s.tasks, Spent));
    }
  }

  lemma {:induction false} AlwaysLevelled(c: Config, zone: Zone, counter: u64, acts: seq<Action>)
    ensures Levelled(c, After(c, Init(c, zone, counter), acts))
  {
    hide Sum;
    if acts == [] {
      SumZero(Init(c, zone, counter).tasks, Over);
    } else {
      var n := |acts| - 1;
      var a := acts[n];
      AlwaysLevelled(c, zone, counter, acts[..n]);
      Conservation(c, zone, counter, acts[..n]);
      var s := After(c, Init(c, zone, counter), acts[..n]);
      hide Levelled, Counts, Step, Enabled, Init;
      if Enabled(c, s, a) {
        if a.FetchAdd? || a.GiveBack? { TicketLevel(c, s, a); } else { OtherLevel(c, s, a); }
      }
    }
  }

  /** Whatever the limit and the pool size, no interleaving grants more. */
  lemma GrantsBounded(c: Config, zone: Zone, counter: u64, acts: seq<Action>)
    ensures After(c, Init(c, zone, counter), acts).accepted <= MaxGranted(c)
  {
    AlwaysLevelled(c, zone, counter, acts);
  }

  // ── An interleaving that grants them all ─────────────────────────────────

  ghost predicate Reaches(c: Config, s: State, s': State) {
    exists acts :: After(c, s, acts) == s'
  }

  lemma ReachStep(c: Config, s0: State, s: State, a: Action)
    requires Reaches(c, s0, s) && Enabled(c, s, a)
    ensures Reaches(c, s0, Step(c, s, a))
  {
    var acts :| After(c, s0, acts) == s;
    AfterSnoc(c, s0, acts, a);
  }

  /** k tickets granted; worker 0 at pc takes them. Workers below v are gone,
      the next u are about to give a ticket back, the others about to check. */
  predicate Stage(c: Config, s: State, pc: Pc, k: nat, v: nat, u: nat) {
    && |s.tasks| == c.concurrency && 1 <= v && v + u <= c.concurrency
    && !s.cancel && s.accepted == k && s.sent == (k + u) % U64_MODULUS
    && s.tasks[0] == pc
    && forall t :: 1 <= t < c.concurrency ==>
         s.tasks[t] == if t < v then Exited else if t < v + u then GivingBack else Checking
  }

  lemma Claim(c: Config, s0: State, s: State, k: nat, v: nat, u: nat) returns (s': State)
    requires Reaches(c, s0, s) && Stage(c, s, Checking, k, v, u) && (k + u) % U64_MODULUS < Limit(c)
    ensures Reaches(c, s0, s') && Stage(c, s', Claimed, k + 1, v, u)
  {
    hide After, Reaches;
    ReachStep(c, s0, s, CheckCancel(0));
    s' := Step(c, s, CheckCancel(0));
    assert Stage(c, s', Claiming, k, v, u);
    ReachStep(c, s0, s', FetchAdd(0));
    WrapSubUndoesAdd(k + u);
    s' := Step(c, s', FetchAdd(0));
  }

  lemma DrawTicket(c: Config, s0: State, s: State, k: nat, v: nat, u: nat) returns (s': State, rec: DnsRecord)
    requires Reaches(c, s0, s) && Stage(c, s, Claimed, k, v, u) && c.generator.hosts != []
    ensures Reaches(c, s0, s') && Stage(c, s', Connecting(rec), k, v, u)
  {
    hide After, Reaches, MakeRecord, DrawnHost;
    ReachStep(c, s0, s, Draw(0, 0));
    s' := Step(c, s, Draw(0, 0));
    rec := s'.tasks[0].rec;
  }

  lemma FailAndReport(c: Config, s0: State, s: State, rec: DnsRecord, k: nat, v: nat, u: nat) returns (s': State)
    requires Reaches(c, s0, s) && Stage(c, s, Connecting(rec), k, v, u)
    ensures Reaches(c, s0, s') && Stage(c, s', Checking, k, v, u)
  {
    hide After, Reaches;
    ReachStep(c, s0, s, Connect(0, Some(Broken)));
    s' := Step(c, s, Connect(0, Some(Broken)));
    assert Stage(c, s', Reporting(Some(Stats.Transport)), k, v, u);
    ReachStep(c, s0, s', Report(0, 0));
    s' := Step(c, s', Report(0, 0));
  }

  lemma GrantOne(c: Config, s0: State, s: State, k: nat, v: nat, u: nat) returns (s': State)
    requires Reaches(c, s0, s) && Stage(c, s, Checking, k, v, u) && (k + u) % U64_MODULUS < Limit(c)
    requires c.generator.hosts != []
    ensures Reaches(c, s0, s') && Stage(c, s', Checking, k + 1, v, u)
  {
    hide Reaches, Stage;
    s' := Claim(c, s0, s, k, v, u);
    var rec;
    s', rec := DrawTicket(c, s0, s', k + 1, v, u);
    s' := FailAndReport(c, s0, s', rec, k + 1, v, u);
  }

  lemma OvershootOne(c: Config, s0: State, s: State, k: nat, v: nat, u: nat) returns (s': State)
    requires Reaches(c, s0, s) && Stage(c, s, Checking, k, v, u) && (k + u) % U64_MODULUS >= Limit(c)
    requires v + u < c.concurrency
    ensures Reaches(c, s0, s') && Stage(c, s', Checking, k, v, u + 1)
  {
    hide After, Reaches;
    var t := v + u;
    ReachStep(c, s0, s, CheckCancel(t));
    s' := Step(c, s, CheckCancel(t));
    ReachStep(c, s0, s', FetchAdd(t));
    WrapSubUndoesAdd(k + u);
    s' := Step(c, s', FetchAdd(t));
  }

  lemma GiveBackOne(c: Config, s0: State, s: State, k: nat, v: nat, u: nat) returns (s': State)
    requires Reaches(c, s0, s) && Stage(c, s, Checking, k, v, u) && u > 0
    ensures Reaches(c, s0, s') && Stage(c, s', Checking, k, v + 1, u - 1)
  {
    hide After, Reaches;
    ReachStep(c, s0, s, GiveBack(v));
    WrapSubUndoesAdd(k + u - 1);
    s' := Step(c, s, GiveBack(v));
  }

  /** With the counter at the start of a turn, worker 0 takes n tickets. */
  lemma {:induction false} GrantMany(c: Config, s0: State, s: State, turn: nat, k: nat, v: nat, u: nat, n: nat)
    returns (s': State)
    requires Reaches(c, s0, s) && Stage(c, s, Checking, k, v, u) && c.generator.hosts != []
    requires k + u == U64_MODULUS * turn && n <= Limit(c)
    ensures Reaches(c, s0, s') && Stage(c, s', Checking, k + n, v, u)
  {
    hide Reaches, Stage;
    s' := s;
    if n > 0 {
      s' := GrantMany(c, s0, s, turn, k, v, u, n - 1);
      DivModUnique(k + n - 1 + u, U64_MODULUS, turn, n - 1);
      s' := GrantOne(c, s0, s', k + n - 1, v, u);
    }
  }

  /** With all tickets of the turn granted, u workers overshoot together. */
  lemma {:induction false} OvershootMany(c: Config, s0: State, s: State, turn: nat, k: nat, v: nat, u: nat)
    returns (s': State)
    requires Reaches(c, s0, s) && Stage(c, s, Checking, k, v, 0)
    requires k == U64_MODULUS * turn + Limit(c) && u <= Crowd(c) && v + u <= c.concurrency
    ensures Reaches(c, s0, s') && Stage(c, s', Checking, k, v, u)
  {
    hide Reaches, Stage;
    s' := s;
    if u > 0 {
      s' := OvershootMany(c, s0, s, turn, k, v, u - 1);
      DivModUnique(k + u - 1, U64_MODULUS, turn, Limit(c) + u - 1);
      s' := OvershootOne(c, s0, s', k, v, u - 1);
    }
  }

  /** The overshooters leave one by one; each lets one more ticket be taken. */
  lemma {:induction false} LeaveAndGrant(c: Config, s0: State, s: State, turn: nat, k: nat, v: nat, u: nat)
    returns (s': State)
    requires Reaches(c, s0, s) && Stage(c, s, Checking, k, v, u) && c.generator.hosts != []
    requires k + u == U64_MODULUS * turn + Limit(c) && Limit(c) > 0
    ensures Reaches(c, s0, s') && Stage(c, s', Checking, k + u, v + u, 0)
    decreases u
  {
    hide Reaches, Stage;
    s' := s;
    if u > 0 {
      s' := GiveBackOne(c, s0, s, k, v, u);
      DivModUnique(k + u - 1, U64_MODULUS, turn, Limit(c) - 1);
      s' := GrantOne(c, s0, s', k, v + 1, u - 1);
      s' := LeaveAndGrant(c, s0, s', turn, k + 1, v + 1, u - 1);
    }
  }

  /** One crowd carries the counter once around: 2^64 more tickets. */
  lemma NextTurn(c: Config, s0: State, s: State, turn: nat, v: nat) returns (s': State)
    requires Reaches(c, s0, s) && c.generator.hosts != [] && Limit(c) > 0
    requires Stage(c, s, Checking, U64_MODULUS * turn + Limit(c), v, 0) && v + Crowd(c) <= c.concurrency
    ensures Reaches(c, s0, s')
    ensures Stage(c, s', Checking, U64_MODULUS * (turn + 1) + Limit(c), v + Crowd(c), 0)
  {
    hide Reaches, Stage;
    var k, g := U64_MODULUS * turn + Limit(c), Crowd(c);
    s' := OvershootMany(c, s0, s, turn, k, v, g);
    s' := GrantMany(c, s0, s', turn + 1, k, v, g, Limit(c));
    s' := LeaveAndGrant(c, s0, s', turn + 1, k + Limit(c), v, g);
  }

  lemma {:induction false} Turns(c: Config, s0: State, turns: nat) returns (s: State)
    requires c.generator.hosts != [] && Limit(c) > 0
    requires Stage(c, s0, Checking, 0, 1, 0) && 1 + turns * Crowd(c) <= c.concurrency
    ensures Reaches(c, s0, s)
    ensures Stage(c, s, Checking, U64_MODULUS * turns + Limit(c), 1 + turns * Crowd(c), 0)
  {
    if turns == 0 {
      assert After(c, s0, []) == s0;
      hide After, Reaches, Stage;
      s := GrantMany(c, s0, s0, 0, 0, 1, 0, Limit(c));
    } else {
      hide Reaches, Stage;
      MulSucc(Crowd(c), turns - 1);
      s := Turns(c, s0, turns - 1);
      s := NextTurn(c, s0, s, turns - 1, 1 + (turns - 1) * Crowd(c));
    }
  }

  /** Some interleaving grants as many tickets as GrantsBounded allows. */
  lemma GrantsAttained(c: Config, zone: Zone, counter: u64)
    requires c.generator.hosts != []
    ensures exists acts :: After(c, Init(c, zone, counter), acts).accepted == MaxGranted(c)
  {
    var s0 := Init(c, zone, counter);
    if Limit(c) == 0 || c.concurrency == 0 {
      assert After(c, s0, []).accepted == 0;
    } else {
      var q, r := DivMod(c.concurrency - 1, Crowd(c));
      hide After;
      var s := Turns(c, s0, q);
    }
  }

  /** Outside the safe range that is more than the limit. */
  lemma LimitBroken(c: Config, zone: Zone, counter: u64)
    requires c.generator.hosts != [] && !Safe(c)
    ensures exists acts :: After(c, Init(c, zone, counter), acts).accepted > Limit(c)
  {
    GrantsAttained(c, zone, counter);
    SafeMeansNoTurn(c);
  }

  /** The exact number, for every limit and pool: a bound holds over all
      interleavings if and only if it is at least MaxGranted. */
  lemma GrantsExact(c: Config, zone: Zone, counter: u64, n: nat)
    requires c.generator.hosts != []
    ensures MaxGranted(c) <= n <==> forall acts :: After(c, Init(c, zone, counter), acts).accepted <= n
  {
    hide After, MaxGranted;
    forall acts
      ensures After(c, Init(c, zone, counter), acts).accepted <= MaxGranted(c)
    {
      GrantsBounded(c, zone, counter, acts);
    }
    GrantsAttained(c, zone, counter);
  }

  /** So N requests are never exceeded by any interleaving exactly when N plus
      the number of workers fits the 64-bit counter (or N is zero), and without
      a number the largest u64 is not exactly when there is at most one worker. */
  lemma TicketLimitExact(c: Config, zone: Zone, counter: u64)
    requires c.generator.hosts != []
    ensures match c.requests
      case Some(n) =>
        (n == 0 || n + c.concurrency <= U64_MODULUS) <==>
        forall acts :: After(c, Init(c, zone, counter), acts).accepted <= n
      case None =>
        c.concurrency <= 1 <==>
        forall acts :: After(c, Init(c, zone, counter), acts).accepted <= U64_MODULUS - 1
  {
    hide After;
    GrantsExact(c, zone, counter, Limit(c));
    if c.concurrency > 0 {
      SafeMeansNoTurn(c);
    }
  }

  // ── Error codes ──────────────────────────────────────────────────────────

  predicate NotCodeZero(error: Option<Stats.ErrorKind>) {
    error != Some(Stats.DnsRejected(NOERROR))
  }

  ghost predicate NoCodeZero(s: State) {
    && (forall t :: 0 <= t < |s.tasks| && s.tasks[t].Reporting? ==> NotCodeZero(s.tasks[t].error))
    && (forall i :: 0 <= i < |s.channel| ==> NotCodeZero(s.channel[i].error))
    && (forall i :: 0 <= i < |s.received| ==> NotCodeZero(s.received[i].error))
  }

  lemma AcceptedIsNotZero(c: Config, leg: Leg, v: Verdict)
    ensures match Advance(c.shape, leg, v)
      case Done(Some(e)) => NotCodeZero(Some(ToErrorKind(e)))
      case _ => true
  {
  }

  lemma NoCodeZeroStep(c: Config, s: State, a: Action)
    requires NoCodeZero(s)
    ensures NoCodeZero(Try(c, s, a))
  {
    if a.Exchange? && Enabled(c, s, a) {
      AcceptedIsNotZero(c, s.tasks[a.t].leg, a.v);
    }
    hide Advance, ZoneAfter, LateAfter, MakeRecord, Apply;
  }

  lemma {:induction false} CodeZeroNeverSent(c: Config, zone: Zone, counter: u64, acts: seq<Action>)
    ensures NoCodeZero(After(c, Init(c, zone, counter), acts))
  {
    if acts != [] {
      var n := |acts| - 1;
      CodeZeroNeverSent(c, zone, counter, acts[..n]);
      NoCodeZeroStep(c, After(c, Init(c, zone, counter), acts[..n]), acts[n]);
    }
  }

  lemma {:induction false} AbsentCode(os: seq<Stats.Outcome>, code: u16)
    requires forall i :: 0 <= i < |os| ==> os[i].error != Some(Stats.DnsRejected(code))
    ensures Stats.CodeCount(os, code) == 0
  {
    SumZero(os, Stats.HasCode(code));
  }

  /** NOERROR never shows up in the report's list of rejection codes. */
  lemma ReportHasNoCodeZero(c: Config, zone: Zone, counter: u64, acts: seq<Action>, r: Stats.RunReport)
    requires Stats.Summarises(After(c, Init(c, zone, counter), acts).received, r)
    ensures forall n :: (NOERROR, n) !in r.dnsCodes
  {
    CodeZeroNeverSent(c, zone, counter, acts);
    AbsentCode(After(c, Init(c, zone, counter), acts).received, NOERROR);
  }
}
