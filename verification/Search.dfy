/** The rate search of src/perf.rs: clamp, convergence streak, deadline. */
module Search {
  import opened Prelude
  import opened PidControl

  const GAINS := Gains(50.0, 5.0, 10.0)
  const START_RPS: real := 100.0
  const SAMPLE_MS: nat := 500
  const CONVERGE_N: nat := 5
  const CONVERGE_PCT: real := 0.02
  const DEFAULT_CAP: u32 := 50_000

  type u32 = n: nat | n < 0x1_0000_0000

  datatype SearchState = SearchState(pid: PidState, rate: real, streak: nat)

  function Max(x: real, y: real): real { if x < y then y else x }

  function Min(x: real, y: real): real { if x < y then x else y }

  function Abs(x: real): real { if x < 0.0 then -x else x }

  function Clamp(x: real, cap: u32): (rate: real)
    ensures rate >= 0.0
  {
    Min(Max(x, 1.0), cap as real)
  }

  function Change(before: real, after: real): real {
    Abs(after - before) / Max(before, 1.0)
  }

  /** One sampling window with error rate pv. */
  function Window(target: real, cap: u32, st: SearchState, pv: real): SearchState {
    var rate := Clamp(st.rate + Output(GAINS, target, st.pid, pv), cap);
    SearchState(NextPid(target, st.pid, pv), rate,
                if Change(st.rate, rate) < CONVERGE_PCT then st.streak + 1 else 0)
  }

  /** The search after a history of windows. */
  function Searched(target: real, cap: u32, pvs: seq<real>): SearchState {
    if pvs == [] then SearchState(PidState(0.0, 0.0), START_RPS, 0)
    else Window(target, cap, Searched(target, cap, pvs[..|pvs| - 1]), pvs[|pvs| - 1])
  }

  function RateAt(target: real, cap: u32, pvs: seq<real>, k: nat): real
    requires k <= |pvs|
  {
    Searched(target, cap, pvs[..k]).rate
  }

  lemma PidInSearch(target: real, cap: u32, pvs: seq<real>)
    ensures Searched(target, cap, pvs).pid == PidAfter(target, pvs)
  {
  }

  // ── The rate stays in range ──────────────────────────────────────────────

  /** Conversion to u32: truncating, saturating at both ends. */
  function AsU32(rate: real): u32 {
    if rate < 0.0 then 0 else if rate.Floor >= 0x1_0000_0000 then 0xFFFF_FFFF else rate.Floor
  }

  /** Quota of the limiter the search installs. */
  function Quota(rate: real): u32 {
    if AsU32(rate) < 1 then 1 else AsU32(rate)
  }

  /** Quota of the limiter a benchmark builds from its --rps, if it builds one. */
  function BenchmarkQuota(rps: Option<u32>): Option<u32> {
    if rps == Some(0) then None else rps
  }

  /** After any completed window the rate is in [1, cap], and so is its
      truncation, which is the quota; a cap of zero pins the rate to zero and
      the quota to one. */
  lemma RateInRange(target: real, cap: u32, pvs: seq<real>)
    requires pvs != []
    ensures var rate := Searched(target, cap, pvs).rate;
      && (if cap >= 1 then 1.0 <= rate <= cap as real else rate == 0.0)
      && (if cap >= 1 then 1 <= AsU32(rate) <= cap && Quota(rate) == AsU32(rate) else Quota(rate) == 1)
      && AsU32(rate) as real <= rate < AsU32(rate) as real + 1.0
  {
  }

  /** The discovered rate becomes the benchmark phase's --rps. That phase is
      rate limited exactly when the cap is at least one or no window was
      completed, and then within the cap, or at 100 if no window was. */
  lemma BenchmarkIsLimited(target: real, cap: u32, pvs: seq<real>)
    ensures var quota := BenchmarkQuota(Some(AsU32(Searched(target, cap, pvs).rate)));
      && (quota.Some? <==> cap >= 1 || pvs == [])
      && (quota.Some? ==> if pvs == [] then quota.value == 100 else 1 <= quota.value <= cap)
      && (quota.Some? ==>
            var rate := Searched(target, cap, pvs).rate; quota.value as real <= rate < quota.value as real + 1.0)
  {
    if pvs != [] {
      RateInRange(target, cap, pvs);
    }
  }

  // ── A server that fails everything ───────────────────────────────────────

  predicate AllErrors(pvs: seq<real>) {
    forall i :: 0 <= i < |pvs| ==> pvs[i] == 100.0
  }

  lemma AllErrorsPid(target: real, pvs: seq<real>)
    requires AllErrors(pvs) && target <= 100.0
    ensures var pid := PidAfter(target, pvs);
      pid.integral <= 0.0 && pid.prevError == if pvs == [] then 0.0 else target - 100.0
  {
  }

  /** If the setpoint is low enough for one failed window to bring the rate
      down, it stays down, and every further window is small. */
  lemma {:induction false} FailingRate(target: real, cap: u32, pvs: seq<real>)
    requires AllErrors(pvs) && pvs != [] && 65.0 * (target - 100.0) <= -99.0
    ensures Searched(target, cap, pvs).rate == (if cap == 0 then 0.0 else 1.0)
    ensures Searched(target, cap, pvs).streak == |pvs| - 1
  {
    var front := pvs[..|pvs| - 1];
    PidInSearch(target, cap, front);
    AllErrorsPid(target, front);
    if front != [] {
      FailingRate(target, cap, front);
    }
  }

  // ── What the streak means ────────────────────────────────────────────────

  /** Window k (counted from one) changed the rate by less than 2%. */
  predicate Small(target: real, cap: u32, pvs: seq<real>, k: nat)
    requires 1 <= k <= |pvs|
  {
    Change(RateAt(target, cap, pvs, k - 1), RateAt(target, cap, pvs, k)) < CONVERGE_PCT
  }

  lemma PrefixOfPrefix(pvs: seq<real>, n: nat, k: nat)
    requires k <= n <= |pvs|
    ensures pvs[..n][..k] == pvs[..k]
  {
  }

  /** The streak is the length of the longest run of small changes ending with
      the latest window. */
  lemma {:induction false} StreakMeaning(target: real, cap: u32, pvs: seq<real>)
    ensures var n, streak := |pvs|, Searched(target, cap, pvs).streak;
      && streak <= n
      && (forall k :: n - streak < k <= n ==> Small(target, cap, pvs, k))
      && (streak < n ==> !Small(target, cap, pvs, n - streak))
  {
    if pvs != [] {
      var n := |pvs| - 1;
      var front := pvs[..n];
      StreakMeaning(target, cap, front);
      LatestStreak(target, cap, pvs);
      forall k | 1 <= k <= n
        ensures Small(target, cap, front, k) == Small(target, cap, pvs, k)
      {
        SmallInPrefix(target, cap, pvs, n, k);
      }
      hide Searched, Small;
      var streak := Searched(target, cap, pvs).streak;
      forall k | n + 1 - streak < k <= n + 1
        ensures Small(target, cap, pvs, k)
      {
        assert k <= n ==> Small(target, cap, front, k);
      }
    }
  }

  lemma SmallInPrefix(target: real, cap: u32, pvs: seq<real>, n: nat, k: nat)
    requires 1 <= k <= n <= |pvs|
    ensures Small(target, cap, pvs[..n], k) == Small(target, cap, pvs, k)
  {
    PrefixOfPrefix(pvs, n, k);
    PrefixOfPrefix(pvs, n, k - 1);
  }

  lemma LatestStreak(target: real, cap: u32, pvs: seq<real>)
    requires pvs != []
    ensures Searched(target, cap, pvs).streak
      == if Small(target, cap, pvs, |pvs|) then Searched(target, cap, pvs[..|pvs| - 1]).streak + 1 else 0
  {
    assert pvs[..|pvs|] == pvs;
  }

  function Pow(x: real, n: nat): real {
    if n == 0 then 1.0 else Pow(x, n - 1) * x
  }

  lemma SmallStepRatio(before: real, after: real)
    requires before >= 1.0 && Change(before, after) < CONVERGE_PCT
    ensures 0.98 * before < after < 1.02 * before
  {
    var d := Abs(after - before);
    assert d / before * before == d;
    Shrink(before, d / before);
  }

  lemma Shrink(before: real, q: real)
    requires before >= 1.0 && q < CONVERGE_PCT
    ensures q * before < CONVERGE_PCT * before
  {
  }

  lemma ChainRatio(a: real, b: real, lo: real, hi: real, x: real, y: real, z: real)
    requires 0.0 < a && 0.0 < b && lo * x < y < hi * x && a * y < z < b * y
    ensures (lo * a) * x < z < (hi * b) * x
  {
    assert a * (lo * x) < a * y;
    assert b * y < b * (hi * x);
  }

  lemma LatestWindow(target: real, cap: u32, pvs: seq<real>)
    requires Searched(target, cap, pvs).streak >= 1
    ensures pvs != []
    ensures var front := Searched(target, cap, pvs[..|pvs| - 1]);
      && front.streak + 1 == Searched(target, cap, pvs).streak
      && Change(front.rate, Searched(target, cap, pvs).rate) < CONVERGE_PCT
  {
  }

  lemma RateAtLeastOne(target: real, cap: u32, pvs: seq<real>)
    requires cap >= 1
    ensures Searched(target, cap, pvs).rate >= 1.0
  {
    if pvs != [] {
      RateInRange(target, cap, pvs);
    }
  }

  /** Strictly between 0.98^j and 1.02^j times the earlier rate. */
  predicate Confined(j: nat, before: real, after: real) {
    Pow(0.98, j) * before < after < Pow(1.02, j) * before
  }

  lemma ConfinedOnce(before: real, after: real)
    requires before >= 1.0 && Change(before, after) < CONVERGE_PCT
    ensures Confined(1, before, after)
  {
    SmallStepRatio(before, after);
    assert Pow(0.98, 0) == 1.0 && Pow(1.02, 0) == 1.0;
    assert Pow(0.98, 1) == 0.98 && Pow(1.02, 1) == 1.02;
  }

  lemma ConfinedAgain(j: nat, x: real, y: real, z: real)
    requires Confined(j, x, y) && y >= 1.0 && Change(y, z) < CONVERGE_PCT
    ensures Confined(j + 1, x, z)
  {
    SmallStepRatio(y, z);
    ChainRatio(0.98, 1.02, Pow(0.98, j), Pow(1.02, j), x, y, z);
  }

  lemma {:induction false} PowPositive(x: real, n: nat)
    requires x > 0.0
    ensures Pow(x, n) > 0.0
  {
    if n > 0 {
      PowPositive(x, n - 1);
    }
  }

  lemma ZeroNotConfined(j: nat, before: real)
    requires before >= 0.0
    ensures !Confined(j, before, 0.0)
  {
    PowPositive(0.98, j);
    assert Pow(0.98, j) * before >= 0.0;
  }

  lemma {:induction false} ConfinedByStreak(target: real, cap: u32, pvs: seq<real>, j: nat)
    requires cap >= 1 && 1 <= j <= Searched(target, cap, pvs).streak
    ensures j <= |pvs| && Confined(j, RateAt(target, cap, pvs, |pvs| - j), Searched(target, cap, pvs).rate)
  {
    LatestWindow(target, cap, pvs);
    var n := |pvs| - 1;
    var front := pvs[..n];
    RateAtLeastOne(target, cap, front);
    hide Searched, Change, Confined;
    if j == 1 {
      ConfinedOnce(Searched(target, cap, front).rate, Searched(target, cap, pvs).rate);
    } else {
      ConfinedByStreak(target, cap, front, j - 1);
      PrefixOfPrefix(pvs, n, |pvs| - j);
      ConfinedAgain(j - 1, RateAt(target, cap, pvs, |pvs| - j),
                    Searched(target, cap, front).rate, Searched(target, cap, pvs).rate);
    }
  }

  /** A streak of j small changes confines the rate strictly by the j-th
      powers of 0.98 and 1.02 around the rate j windows earlier, exactly when
      the cap is at least one; a cap of zero pins the rate to zero. */
  lemma StreakConfinesRate(target: real, cap: u32, pvs: seq<real>, j: nat)
    requires 1 <= j <= Searched(target, cap, pvs).streak
    ensures j <= |pvs|
    ensures Confined(j, RateAt(target, cap, pvs, |pvs| - j), Searched(target, cap, pvs).rate) <==> cap >= 1
  {
    StreakMeaning(target, cap, pvs);
    if cap >= 1 {
      ConfinedByStreak(target, cap, pvs, j);
    } else {
      RateInRange(target, cap, pvs);
      ZeroNotConfined(j, RateAt(target, cap, pvs, |pvs| - j));
    }
  }

  // ── Runs on which the clamp never binds ──────────────────────────────────

  ghost predicate Unclamped(target: real, cap: u32, pvs: seq<real>) {
    forall k :: 0 <= k <= |pvs| ==> 1.0 <= START_RPS + OutputSum(GAINS, target, pvs[..k]) <= cap as real
  }

  lemma {:induction false} UnclampedRate(target: real, cap: u32, pvs: seq<real>)
    requires Unclamped(target, cap, pvs)
    ensures Searched(target, cap, pvs).rate == START_RPS + OutputSum(GAINS, target, pvs)
  {
    if pvs != [] {
      var n := |pvs| - 1;
      forall k | 0 <= k <= n
        ensures 1.0 <= START_RPS + OutputSum(GAINS, target, pvs[..n][..k]) <= cap as real
      {
        PrefixOfPrefix(pvs, n, k);
      }
      UnclampedRate(target, cap, pvs[..n]);
      PidInSearch(target, cap, pvs[..n]);
      assert pvs[..n + 1] == pvs;
    }
  }

  /** While the clamp never binds, error rates that are nowhere higher never
      end at a lower rate. */
  lemma UnclampedMonotone(target: real, cap: u32, pvs: seq<real>, qvs: seq<real>)
    requires Unclamped(target, cap, pvs) && Unclamped(target, cap, qvs) && NeverAbove(pvs, qvs)
    ensures Searched(target, cap, pvs).rate >= Searched(target, cap, qvs).rate
  {
    UnclampedRate(target, cap, pvs);
    UnclampedRate(target, cap, qvs);
    LowerRatesNeverEndLower(GAINS, target, pvs, qvs);
  }

  // ── When lower error rates can end at a lower rate ───────────────────────

  ghost predicate Percents(pvs: seq<real>) {
    forall i :: 0 <= i < |pvs| ==> 0.0 <= pvs[i] <= 100.0
  }

  /** The loop was still going before each of the first n windows. */
  ghost predicate Going(target: real, cap: u32, pvs: seq<real>, n: nat)
    requires n <= |pvs|
  {
    forall k :: 0 <= k < n ==> Searched(target, cap, pvs[..k]).streak < CONVERGE_N
  }

  /** Over all histories a search can have, error rates that are nowhere
      higher never end at a lower rate. */
  ghost predicate Monotone(target: real, cap: u32) {
    forall pvs, qvs ::
      && Percents(pvs) && Percents(qvs) && NeverAbove(pvs, qvs)
      && Going(target, cap, pvs, |pvs|) && Going(target, cap, qvs, |qvs|) ==>
        Searched(target, cap, pvs).rate >= Searched(target, cap, qvs).rate
  }

  lemma TwoWindows(target: real, cap: u32, p: real, q: real)
    ensures Searched(target, cap, [p, q])
      == Window(target, cap, Window(target, cap, Searched(target, cap, []), p), q)
  {
    assert [p, q][..1] == [p] && [p][..0] == [];
  }

  lemma EarlyIsGoing(target: real, cap: u32, pvs: seq<real>)
    requires |pvs| <= CONVERGE_N
    ensures Going(target, cap, pvs, |pvs|)
  {
    hide Searched;
    forall k | 0 <= k < |pvs|
      ensures Searched(target, cap, pvs[..k]).streak < CONVERGE_N
    {
      StreakMeaning(target, cap, pvs[..k]);
    }
  }

  lemma BreaksMonotone(target: real, cap: u32, p: real, q: real, last: real)
    requires 0.0 <= p <= q <= 100.0 && 0.0 <= last <= 100.0
    requires Searched(target, cap, [p, last]).rate < Searched(target, cap, [q, last]).rate
    ensures !Monotone(target, cap)
  {
    hide Searched, Going;
    EarlyIsGoing(target, cap, [p, last]);
    EarlyIsGoing(target, cap, [q, last]);
    assert NeverAbove([p, last], [q, last]);
  }

  lemma FloorWindows(target: real, cap: u32, st: SearchState, p: real, last: real)
    requires cap >= 2 && -25.0 < 3.0 * target && st == Searched(target, cap, [])
    requires p < 100.0 && 65.0 * (target - p) <= -99.0
    requires if target < -8.0 then p == last == 0.0 else last == (12.0 * target + 100.0) / 13.0 - 1.0 / 130.0
    ensures Window(target, cap, Window(target, cap, st, p), last).rate
      < Window(target, cap, Window(target, cap, st, 100.0), last).rate
  {
    hide Change;
    assert Window(target, cap, st, p).rate == 1.0;
    assert Window(target, cap, st, 100.0).rate == 1.0;
  }

  /** From the lower clamp: after an all-errors window that drives the rate to
      one, the derivative term lifts it again; after a slightly better first
      window it does not. */
  lemma FloorBreaks(target: real, cap: u32)
    requires cap >= 2 && -25.0 < 3.0 * target && 65.0 * target < 6401.0
    ensures !Monotone(target, cap)
  {
    var p, last: real := 0.0, 0.0;
    if -8.0 <= target {
      p := if target < 0.0 then 50.0 else (target + 99.0 / 65.0 + 100.0) / 2.0;
      last := (12.0 * target + 100.0) / 13.0 - 1.0 / 130.0;
    }
    FloorWindows(target, cap, Searched(target, cap, []), p, last);
    hide Searched, Window;
    TwoWindows(target, cap, p, last);
    TwoWindows(target, cap, 100.0, last);
    BreaksMonotone(target, cap, p, 100.0, last);
  }

  lemma CapWindows(target: real, cap: u32, st: SearchState, x: real)
    requires cap >= 2 && st == Searched(target, cap, [])
    requires 0.0 < x <= 100.0 && 65.0 * x <= 100.0 + 65.0 * target - cap as real
    ensures var last := (12.0 * target + x) / 13.0;
      Window(target, cap, Window(target, cap, st, 0.0), last).rate
        < Window(target, cap, Window(target, cap, st, x), last).rate
  {
    hide Change;
    assert Window(target, cap, st, 0.0).rate == cap as real;
    assert Window(target, cap, st, x).rate == cap as real;
  }

  /** From the upper clamp: when a window with few errors reaches the cap, one
      without any gains nothing, but what it adds to the derivative term costs
      rate one window later. */
  lemma CapBreaks(target: real, cap: u32)
    requires cap >= 2 && 0.0 <= target && 3.0 * target < 325.0
    requires cap as real < 100.0 + 65.0 * target
    ensures !Monotone(target, cap)
  {
    var x := Min(100.0, Min(1300.0 - 12.0 * target, (100.0 + 65.0 * target - cap as real) / 65.0));
    var last := (12.0 * target + x) / 13.0;
    CapWindows(target, cap, Searched(target, cap, []), x);
    hide Searched, Window;
    TwoWindows(target, cap, 0.0, last);
    TwoWindows(target, cap, x, last);
    BreaksMonotone(target, cap, 0.0, x, last);
  }

  lemma FarBelowZero(target: real, pvs: seq<real>)
    requires 3.0 * target <= -25.0 && Percents(pvs)
    ensures var pid := PidAfter(target, pvs);
      && pid.integral <= pid.prevError <= 0.0
      && (pvs != [] ==> target - 100.0 <= pid.prevError)
  {
  }

  /** A setpoint far below zero leaves the rate at one from the first window. */
  lemma {:induction false} AlwaysOne(target: real, cap: u32, pvs: seq<real>)
    requires cap >= 1 && 3.0 * target <= -25.0 && Percents(pvs) && pvs != []
    ensures Searched(target, cap, pvs).rate == 1.0
  {
    var front := pvs[..|pvs| - 1];
    PidInSearch(target, cap, front);
    FarBelowZero(target, front);
    if front != [] {
      AlwaysOne(target, cap, front);
    }
  }

  lemma FarAboveHundred(target: real, pvs: seq<real>)
    requires 3.0 * target >= 325.0 && Percents(pvs)
    ensures var pid := PidAfter(target, pvs); 0.0 <= pid.prevError <= pid.integral && pid.prevError <= target
  {
  }

  lemma NeverDown(target: real, pvs: seq<real>, pv: real)
    requires 3.0 * target >= 325.0 && Percents(pvs) && 0.0 <= pv <= 100.0
    ensures Output(GAINS, target, PidAfter(target, pvs), pv) >= 0.0
  {
    FarAboveHundred(target, pvs);
  }

  lemma MinCapAgain(u: real, d: real, cap: u32)
    requires d >= 0.0 && u >= 1.0
    ensures Clamp(Min(u, cap as real) + d, cap) == Min(u + d, cap as real)
    ensures Clamp(u + d, cap) == Min(u + d, cap as real)
  {
  }

  /** A setpoint far above 100 lets the rate only rise, up to the cap. */
  lemma {:induction false} AlwaysUp(target: real, cap: u32, pvs: seq<real>)
    requires 3.0 * target >= 325.0 && Percents(pvs)
    ensures OutputSum(GAINS, target, pvs) >= 0.0
    ensures pvs != [] ==> Searched(target, cap, pvs).rate == Min(START_RPS + OutputSum(GAINS, target, pvs), cap as real)
  {
    if pvs != [] {
      var n := |pvs| - 1;
      var front := pvs[..n];
      AlwaysUp(target, cap, front);
      PidInSearch(target, cap, front);
      NeverDown(target, front, pvs[n]);
      MinCapAgain(START_RPS + OutputSum(GAINS, target, front), Output(GAINS, target, PidAfter(target, front), pvs[n]), cap);
      hide Output, PidAfter, Clamp, Min, Change;
    }
  }

  lemma MonotoneWithoutChoice(target: real, cap: u32, pvs: seq<real>, qvs: seq<real>)
    requires cap <= 1 || 3.0 * target <= -25.0 || 3.0 * target >= 325.0
    requires Percents(pvs) && Percents(qvs) && NeverAbove(pvs, qvs)
    ensures Searched(target, cap, pvs).rate >= Searched(target, cap, qvs).rate
  {
    if pvs != [] {
      hide Searched, OutputSum;
      if cap <= 1 {
        RateInRange(target, cap, pvs);
        RateInRange(target, cap, qvs);
      } else if 3.0 * target <= -25.0 {
        AlwaysOne(target, cap, pvs);
        AlwaysOne(target, cap, qvs);
      } else {
        AlwaysUp(target, cap, pvs);
        AlwaysUp(target, cap, qvs);
        LowerRatesNeverEndLower(GAINS, target, pvs, qvs);
      }
    }
  }

  /** Lower error rates never end a search at a lower rate exactly when the cap
      leaves it nothing to choose, or the setpoint is so far out that every
      correction has the same sign. For a setpoint from 0 to 98 that means
      exactly when the cap is zero or one. */
  lemma MonotoneExactly(target: real, cap: u32)
    requires 65.0 * target < 6401.0 || 3.0 * target >= 325.0 || cap as real < 100.0 + 65.0 * target
    ensures Monotone(target, cap) <==> cap <= 1 || 3.0 * target <= -25.0 || 3.0 * target >= 325.0
  {
    if cap <= 1 || 3.0 * target <= -25.0 || 3.0 * target >= 325.0 {
      hide Searched, Going;
      forall pvs, qvs | Percents(pvs) && Percents(qvs) && NeverAbove(pvs, qvs)
        ensures Searched(target, cap, pvs).rate >= Searched(target, cap, qvs).rate
      {
        MonotoneWithoutChoice(target, cap, pvs, qvs);
      }
    } else if 65.0 * target < 6401.0 {
      FloorBreaks(target, cap);
    } else {
      CapBreaks(target, cap);
    }
  }

  /** At the default setpoint and cap: an all-errors window followed by a clean
      one ends at 561, two clean windows only at 225. */
  lemma ClampBreaksMonotonicity()
    ensures NeverAbove([0.0, 0.0], [100.0, 0.0])
    ensures Searched(1.0, DEFAULT_CAP, [0.0, 0.0]).rate == 225.0
    ensures Searched(1.0, DEFAULT_CAP, [100.0, 0.0]).rate == 561.0
  {
    TwoWindows(1.0, DEFAULT_CAP, 0.0, 0.0);
    TwoWindows(1.0, DEFAULT_CAP, 100.0, 0.0);
  }
}
