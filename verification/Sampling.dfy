/** The sampling loop of src/perf.rs: from counter readings to the rate. */
module Sampling {
  import opened Prelude
  import opened PidControl
  import opened Search
  import opened Convergence
  import Stats

  /** One wake-up that found time left: when, and the two counters read. */
  datatype Wake = Wake(atMs: nat, ok: nat, err: nat)

  function ErrorRate(deltaOk: nat, deltaErr: nat): (rate: real)
    ensures 0.0 <= rate <= 100.0
    ensures rate * (deltaOk + deltaErr) as real == 100.0 * deltaErr as real
    ensures deltaErr == 0 ==> rate == 0.0
  {
    var total := deltaOk + deltaErr;
    if total == 0 then 0.0
    else
      FractionInUnit(deltaErr, total);
      assert deltaErr as real / total as real * total as real == deltaErr as real;
      deltaErr as real / total as real * 100.0
  }

  lemma FractionInUnit(part: nat, total: nat)
    requires 0 < total && part <= total
    ensures 0.0 <= part as real / total as real <= 1.0
  {
    Stats.QuotientBetween(part, total, 0, 1);
  }

  /** The readings of two counters that only grow. */
  ghost predicate Growing(wakes: seq<Wake>) {
    forall i, j :: 0 <= i <= j < |wakes| ==> wakes[i].ok <= wakes[j].ok && wakes[i].err <= wakes[j].err
  }

  function OkBefore(wakes: seq<Wake>, i: nat): nat
    requires i <= |wakes|
  {
    if i == 0 then 0 else wakes[i - 1].ok
  }

  function ErrBefore(wakes: seq<Wake>, i: nat): nat
    requires i <= |wakes|
  {
    if i == 0 then 0 else wakes[i - 1].err
  }

  ghost function WindowRate(wakes: seq<Wake>, i: nat): real
    requires Growing(wakes) && i < |wakes|
  {
    ErrorRate(wakes[i].ok - OkBefore(wakes, i), wakes[i].err - ErrBefore(wakes, i))
  }

  ghost function WindowRates(wakes: seq<Wake>): (pvs: seq<real>)
    requires Growing(wakes)
    ensures |pvs| == |wakes|
    ensures forall i :: 0 <= i < |wakes| ==> pvs[i] == WindowRate(wakes, i)
  {
    seq(|wakes|, i requires 0 <= i < |wakes| => WindowRate(wakes, i))
  }

  /** Deltas of successive windows add up to the last readings: a completion
      lands in at most one window. */
  lemma {:induction false} WindowsPartition(wakes: seq<Wake>, n: nat)
    requires Growing(wakes) && n <= |wakes|
    ensures Completed(wakes, n) == OkBefore(wakes, n) + ErrBefore(wakes, n)
  {
    if n > 0 {
      WindowsPartition(wakes, n - 1);
    }
  }

  /** Completions attributed to the first n windows. */
  ghost function Completed(wakes: seq<Wake>, n: nat): int
    requires n <= |wakes|
  {
    if n == 0 then 0
    else
      var w := wakes[n - 1];
      Completed(wakes, n - 1) + (w.ok - OkBefore(wakes, n - 1)) + (w.err - ErrBefore(wakes, n - 1))
  }

  class SharedLimiter {
    var quota: nat

    constructor ()
      ensures quota == 100
    {
      quota := 100;
    }
  }

  /** The loop's variables: controller, rate, streak and last readings. */
  class SearchLoop {
    const target: real
    const cap: u32
    const pid: Pid
    const limiter: SharedLimiter
    var currentRps: real
    var streak: nat
    var lastOk: nat
    var lastErr: nat

    ghost predicate Valid()
      reads this
    {
      pid.gains == GAINS && pid.setpoint == target && currentRps >= 0.0
    }

    ghost function Abs(): SearchState
      reads this, pid
    {
      SearchState(pid.Abs(), currentRps, streak)
    }

    constructor (target: real, cap: u32, limiter: SharedLimiter)
      ensures Valid() && fresh(pid)
      ensures this.target == target && this.cap == cap && this.limiter == limiter
      ensures Abs() == Searched(target, cap, []) && streak == 0 && lastOk == 0 && lastErr == 0
    {
      this.target, this.cap, this.limiter := target, cap, limiter;
      pid := new Pid(GAINS, target);
      currentRps, streak, lastOk, lastErr := START_RPS, 0, 0, 0;
    }

    /** The loop has been through the first n windows of these wake-ups. */
    ghost predicate Through(wakes: seq<Wake>, n: nat)
      requires Growing(wakes) && n <= |wakes|
      reads this, pid, limiter
    {
      && Valid()
      && lastOk == OkBefore(wakes, n) && lastErr == ErrBefore(wakes, n)
      && Abs() == Searched(target, cap, WindowRates(wakes)[..n])
      && Going(target, cap, WindowRates(wakes), n)
      && limiter.quota == (if n == 0 then 100 else Quota(currentRps))
    }

    /** Takes the next wake-up's sample. */
    method SampleNext(wakes: seq<Wake>, n: nat) returns (done: bool)
      requires Growing(wakes) && n < |wakes| && Through(wakes, n) && streak < CONVERGE_N
      modifies this, pid, limiter
      ensures Through(wakes, n + 1)
      ensures done <==> streak >= CONVERGE_N
    {
      ghost var pvs := WindowRates(wakes);
      NextWindow(target, cap, pvs, n);
      assert pvs[n] == WindowRate(wakes, n);
      hide Searched, WindowRates, Window, Quota, ErrorRate;
      done := Sample(wakes[n].ok, wakes[n].err);
    }

    /** One sample; true when the streak is complete. */
    method Sample(ok: nat, err: nat) returns (done: bool)
      requires Valid() && lastOk <= ok && lastErr <= err
      modifies this, pid, limiter
      ensures Valid() && lastOk == ok && lastErr == err
      ensures Abs() == Window(target, cap, old(Abs()), ErrorRate(ok - old(lastOk), err - old(lastErr)))
      ensures done <==> streak >= CONVERGE_N && streak > old(streak)
      ensures limiter.quota == Quota(currentRps)
    {
      var errorRate := ErrorRate(ok - lastOk, err - lastErr);
      lastOk, lastErr := ok, err;
      hide Output, NextPid, Clamp, Change, ErrorRate, Quota;
      var delta := pid.Update(errorRate);
      var newRps := Clamp(currentRps + delta, cap);
      var change := Change(currentRps, newRps);
      currentRps := newRps;
      limiter.quota := Quota(currentRps);
      if change < CONVERGE_PCT {
        streak := streak + 1;
        done := streak >= CONVERGE_N;
      } else {
        streak := 0;
        done := false;
      }
    }
  }

  /** Runs the search over the wake-ups that come before the deadline. */
  method RunSearch(target: real, maxRps: Option<u32>, wakes: seq<Wake>, limiter: SharedLimiter)
    returns (sustainable: nat, converged: bool, updates: nat, ghost final: SearchState)
    requires Growing(wakes)
    requires limiter.quota == 100
    modifies limiter
    ensures SearchResult(target, CapOf(maxRps), wakes, converged, updates)
    ensures final == Searched(target, CapOf(maxRps), WindowRates(wakes)[..updates])
    ensures sustainable == AsU32(final.rate)
    ensures updates > 0 ==> sustainable <= if maxRps.Some? then maxRps.value else 50_000
    ensures limiter.quota == (if updates == 0 then 100 else Quota(final.rate))
  {
    var cap := CapOf(maxRps);
    var search := new SearchLoop(target, cap, limiter);
    updates, converged := 0, false;
    assert WindowRates(wakes)[..0] == [];
    hide Searched, Quota, WindowRates;
    while !converged && updates < |wakes|
      invariant updates <= |wakes|
      invariant fresh(search) && fresh(search.pid)
      invariant search.target == target && search.cap == cap && search.limiter == limiter
      invariant search.Through(wakes, updates) && (converged <==> search.streak >= CONVERGE_N)
    {
      converged := search.SampleNext(wakes, updates);
      updates := updates + 1;
    }
    final := search.Abs();
    sustainable := AsU32(search.currentRps);
    if updates > 0 {
      RateInRange(target, cap, WindowRates(wakes)[..updates]);
      WithinCap(final.rate, cap);
    }
  }

  function CapOf(maxRps: Option<u32>): u32 {
    if maxRps.Some? then maxRps.value else DEFAULT_CAP
  }

  lemma WithinCap(rate: real, cap: u32)
    requires 0.0 <= rate <= cap as real
    ensures AsU32(rate) <= cap
  {
  }

  lemma NextWindow(target: real, cap: u32, pvs: seq<real>, n: nat)
    requires n < |pvs|
    ensures Searched(target, cap, pvs[..n + 1]) == Window(target, cap, Searched(target, cap, pvs[..n]), pvs[n])
  {
    assert pvs[..n + 1][..n] == pvs[..n];
  }

  /** What RunSearch promises about a search over `wakes`: how many windows it
      used and why it stopped. */
  ghost predicate SearchResult(target: real, cap: u32, wakes: seq<Wake>, converged: bool, updates: nat)
    requires Growing(wakes)
  {
    && updates <= |wakes|
    && Going(target, cap, WindowRates(wakes), updates)
    && (converged <==> Searched(target, cap, WindowRates(wakes)[..updates]).streak >= CONVERGE_N)
    && (converged || updates == |wakes|)
  }

  /** If no transaction fails and the deadline leaves 97 windows, the search
      converges, within 97 windows, for every setpoint and cap. */
  lemma ErrorFreeSearchConverges(target: real, cap: u32, wakes: seq<Wake>, converged: bool, updates: nat)
    requires target > 0.0
    requires Growing(wakes) && (forall i :: 0 <= i < |wakes| ==> wakes[i].err == 0)
    requires SearchResult(target, cap, wakes, converged, updates)
    ensures |wakes| >= 97 ==> converged
    ensures updates <= 97
  {
    var pvs := WindowRates(wakes);
    assert ErrorFree(pvs);
    if updates > 97 {
      ErrorFreeConverges(target, cap, pvs[..97]);
    } else if |wakes| >= 97 && !converged {
      ErrorFreeConverges(target, cap, pvs[..updates]);
    }
  }

  /** The exact verdict on an error-free server: the search uses Stop windows
      and converges, or runs out of time first. */
  lemma ErrorFreeSearchStops(target: real, cap: u32, wakes: seq<Wake>, converged: bool, updates: nat)
    requires target > 0.0
    requires Growing(wakes) && (forall i :: 0 <= i < |wakes| ==> wakes[i].err == 0)
    requires SearchResult(target, cap, wakes, converged, updates)
    ensures converged <==> |wakes| >= Stop(target, cap)
    ensures updates == if converged then Stop(target, cap) else |wakes|
  {
    var pvs, stop := WindowRates(wakes), Stop(target, cap);
    assert ErrorFree(pvs);
    hide Stop, Uncapped, Searched, WindowRates;
    StopsExactly(target, cap, pvs[..if updates < stop then updates else stop]);
  }

  /** Without failures the cap is reached, exactly, once the quadratic is at
      it: the given one, or 50,000. */
  lemma ErrorFreeReachesCap(target: real, maxRps: Option<u32>, wakes: seq<Wake>, converged: bool, updates: nat)
    requires target > 0.0 && updates >= 1
    requires Growing(wakes) && (forall i :: 0 <= i < |wakes| ==> wakes[i].err == 0)
    requires SearchResult(target, CapOf(maxRps), wakes, converged, updates)
    ensures var cap := if maxRps.Some? then maxRps.value else 50_000;
      Uncapped(target, updates as real) >= cap as real ==>
        AsU32(Searched(target, CapOf(maxRps), WindowRates(wakes)[..updates]).rate) == cap
  {
    assert ErrorFree(WindowRates(wakes));
    hide WindowRates, Searched, Uncapped;
    ErrorFreeRate(target, CapOf(maxRps), WindowRates(wakes)[..updates]);
  }

  /** Every completion up to each wake-up failed, and some did in every window. */
  ghost predicate OnlyFailures(wakes: seq<Wake>) {
    forall i :: 0 <= i < |wakes| ==> wakes[i].ok == 0 && ErrBefore(wakes, i) < wakes[i].err
  }

  lemma OnlyFailuresRate(wakes: seq<Wake>, i: nat)
    requires Growing(wakes) && OnlyFailures(wakes) && i < |wakes|
    ensures WindowRate(wakes, i) == 100.0
  {
    var d := wakes[i].err - ErrBefore(wakes, i);
    assert OkBefore(wakes, i) == wakes[i].ok == 0;
    hide ErrorRate, Growing, OnlyFailures;
    assert ErrorRate(0, d) * d as real == 100.0 * d as real;
    CancelFactor(ErrorRate(0, d), 100.0, d as real);
  }

  lemma OnlyFailuresRates(wakes: seq<Wake>)
    requires Growing(wakes) && OnlyFailures(wakes)
    ensures AllErrors(WindowRates(wakes))
  {
    hide WindowRate, OnlyFailures;
    forall i | 0 <= i < |wakes|
      ensures WindowRates(wakes)[i] == 100.0
    {
      OnlyFailuresRate(wakes, i);
    }
  }

  lemma CancelFactor(x: real, y: real, k: real)
    requires k > 0.0 && x * k == y * k
    ensures x == y
  {
  }

  /** A server that fails everything: if the setpoint is low enough for one
      failed window to bring the rate to its floor, the search sits there from
      window one and converges at exactly window six, time permitting. */
  lemma FailingSearch(target: real, cap: u32, wakes: seq<Wake>, converged: bool, updates: nat)
    requires 65.0 * (target - 100.0) <= -99.0
    requires Growing(wakes) && OnlyFailures(wakes) && SearchResult(target, cap, wakes, converged, updates)
    ensures converged <==> |wakes| >= 6
    ensures updates == if converged then 6 else |wakes|
    ensures updates >= 1 ==> Searched(target, cap, WindowRates(wakes)[..updates]).rate == if cap == 0 then 0.0 else 1.0
  {
    OnlyFailuresRates(wakes);
    var pvs := WindowRates(wakes);
    hide WindowRates, Searched, OnlyFailures;
    if updates > 6 {
      FailingRate(target, cap, pvs[..6]);
    }
    if updates >= 1 {
      FailingRate(target, cap, pvs[..updates]);
    } else {
      assert pvs[..0] == [];
      StreakMeaning(target, cap, []);
    }
  }

  /** A converged search used at least five windows, and its final rate lies
      strictly between 0.98^5 and 1.02^5 times the rate five windows before,
      unless the cap is zero. */
  lemma ConvergedMeans(target: real, cap: u32, wakes: seq<Wake>, updates: nat)
    requires Growing(wakes) && SearchResult(target, cap, wakes, true, updates)
    ensures updates >= 5
    ensures var pvs := WindowRates(wakes)[..updates];
      Confined(5, RateAt(target, cap, pvs, updates - 5), Searched(target, cap, pvs).rate) <==> cap >= 1
  {
    StreakConfinesRate(target, cap, WindowRates(wakes)[..updates], 5);
  }

  // ── Latency figures of the perf report ───────────────────────────────────

  datatype Latencies = Latencies(n: nat, minUs: u64, meanUs: real, maxUs: u64)

  /** The figures describe these outcomes, the sum being a u64 that wraps. */
  ghost predicate Describes(os: seq<Stats.Outcome>, r: Latencies) {
    && r.n == |os|
    && (os == [] ==> r.minUs == 0 && r.maxUs == 0 && r.meanUs == 0.0)
    && (os != [] ==>
          && Stats.IsMin(os, r.minUs) && Stats.IsMax(os, r.maxUs)
          && r.meanUs == (Sum(os, Stats.Latency) % U64_MODULUS) as real / |os| as real)
  }

  /** Drains the outcome channel after the workers have been joined; the sum
      is a u64 and wraps. */
  method DrainLatencies(os: seq<Stats.Outcome>) returns (r: Latencies)
    ensures Describes(os, r)
  {
    hide Stats.IsMin, Stats.IsMax;
    var latMin: u64, latMax: u64 := U64_MODULUS - 1, 0;
    var latSum: u64, latN := 0, 0;
    assert os[..0] == [];
    while latN < |os|
      invariant latN <= |os|
      invariant latSum == Sum(os[..latN], Stats.Latency) % U64_MODULUS
      invariant Stats.Spanned(os[..latN], latMin, latMax)
    {
      var x := os[latN].latencyUs;
      Stats.PrefixStep(os, latN, Stats.Latency);
      Stats.SpannedStep(os, latN, latMin, latMax);
      WrapSum(Sum(os[..latN], Stats.Latency), x);
      latN := latN + 1;
      latSum := (latSum + x) % U64_MODULUS;
      if x < latMin { latMin := x; }
      if x > latMax { latMax := x; }
    }
    assert os[..latN] == os;
    r := Latencies(latN, if latN == 0 then 0 else latMin, if latN == 0 then 0.0 else latSum as real / latN as real, latMax);
  }

  lemma WrapSum(sum: nat, x: nat)
    ensures (sum % U64_MODULUS + x) % U64_MODULUS == (sum + x) % U64_MODULUS
  {
    var q := sum / U64_MODULUS;
    assert sum + x == q * U64_MODULUS + (sum % U64_MODULUS + x);
  }

  lemma SameQuotient(x: nat, y: nat, n: nat)
    requires n > 0
    ensures x as real / n as real == y as real / n as real <==> x == y
  {
    var k := n as real;
    assert x as real / k * k == x as real;
    assert y as real / k * k == y as real;
  }

  lemma SameMin(os: seq<Stats.Outcome>, x: nat, y: nat)
    ensures Stats.IsMin(os, x) && Stats.IsMin(os, y) ==> x == y
    ensures Stats.IsMax(os, x) && Stats.IsMax(os, y) ==> x == y
  {
  }

  /** The two-pass drain and the streaming collector agree on count, minimum
      and maximum, and on the mean exactly when the latency sum fits a u64;
      otherwise the drain's sum is short by whole turns of the counter. */
  lemma DrainAgreesWithCollector(os: seq<Stats.Outcome>, d: Latencies, r: Stats.RunReport)
    requires Stats.Summarises(os, r) && Describes(os, d)
    ensures d.n == r.totalSent && d.minUs == r.minUs && d.maxUs == r.maxUs
    ensures d.meanUs == r.meanUs <==> Sum(os, Stats.Latency) < U64_MODULUS
    ensures (r.meanUs - d.meanUs) * |os| as real == (Sum(os, Stats.Latency) / U64_MODULUS * U64_MODULUS) as real
  {
    hide Stats.IsHistogram, Sum, Stats.IsMin, Stats.IsMax;
    var sum := Sum(os, Stats.Latency);
    if os != [] {
      SameMin(os, d.minUs, r.minUs);
      SameMin(os, d.maxUs, r.maxUs);
      SameQuotient(sum % U64_MODULUS, sum, |os|);
      FitsWithoutWrap(sum);
      MeanGap(sum, |os|);
    } else {
      NoLatency();
    }
  }

  lemma MeanGap(sum: nat, n: nat)
    requires n > 0
    ensures (sum as real / n as real - (sum % U64_MODULUS) as real / n as real) * n as real
      == (sum / U64_MODULUS * U64_MODULUS) as real
  {
    var k := n as real;
    assert sum as real / k * k == sum as real;
    assert (sum % U64_MODULUS) as real / k * k == (sum % U64_MODULUS) as real;
    assert sum == sum / U64_MODULUS * U64_MODULUS + sum % U64_MODULUS;
  }

  lemma FitsWithoutWrap(sum: nat)
    ensures sum % U64_MODULUS == sum <==> sum < U64_MODULUS
  {
  }

  lemma NoLatency()
    ensures Sum([], Stats.Latency) == 0
  {
  }
}
