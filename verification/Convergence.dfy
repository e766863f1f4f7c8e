/** The search on an error-free server. */
module Convergence {
  import opened PidControl
  import opened Search

  predicate ErrorFree(pvs: seq<real>) {
    forall i :: 0 <= i < |pvs| ==> pvs[i] == 0.0
  }

  /** Rate after x error-free windows if it were never capped:
      100 + 10s + 50xs + 2.5s x(x + 1). */
  function Uncapped(s: real, x: real): real {
    100.0 + 10.0 * s + 50.0 * (s * x) + 2.5 * (s * (x * x + x))
  }

  /** What window x adds, from the second on. */
  function Increment(s: real, x: real): real {
    50.0 * s + 5.0 * (s * x)
  }

  lemma ProductNonNegative(a: real, b: real)
    requires a >= 0.0 && b >= 0.0
    ensures a * b >= 0.0
  {
  }

  lemma IncrementPositive(s: real, x: real)
    requires s > 0.0 && x >= 0.0
    ensures Increment(s, x) > 0.0
  {
    ProductNonNegative(s, x);
  }

  lemma UncappedStep(s: real, x: real)
    ensures Uncapped(s, x) == Uncapped(s, x - 1.0) + Increment(s, x)
  {
    var y := x - 1.0;
    assert s * y == s * x - s;
    assert y * y + y == x * x - x;
    assert s * (x * x + x) == s * (x * x) + s * x;
    assert s * (x * x - x) == s * (x * x) - s * x;
  }

  lemma {:induction false} NoErrorsSum(pvs: seq<real>)
    requires ErrorFree(pvs)
    ensures RateSum(pvs) == 0.0
  {
    if pvs != [] {
      NoErrorsSum(pvs[..|pvs| - 1]);
    }
  }

  lemma PidErrorFree(s: real, pvs: seq<real>)
    requires ErrorFree(pvs)
    ensures PidAfter(s, pvs) == PidState(|pvs| as real * s, if pvs == [] then 0.0 else s)
  {
    NoErrorsSum(pvs);
    ClosedForm(GAINS, s, pvs);
  }

  /** The correction of the n-th error-free window. */
  lemma ErrorFreeOutput(s: real, pvs: seq<real>)
    requires ErrorFree(pvs)
    ensures var n := |pvs| + 1;
      Output(GAINS, s, PidAfter(s, pvs), 0.0) == Increment(s, n as real) + (if pvs == [] then 10.0 * s else 0.0)
  {
    PidErrorFree(s, pvs);
    var n, m := |pvs| + 1, |pvs| as real;
    assert n as real == m + 1.0;
    assert s * (m + 1.0) == s * m + s;
    assert m * s == s * m;
  }

  lemma UncappedAtLeast100(s: real, x: real)
    requires s > 0.0 && x >= 0.0
    ensures Uncapped(s, x) >= 100.0
  {
    ProductNonNegative(s, x);
    ProductNonNegative(x, x);
    ProductNonNegative(s, x * x + x);
  }

  lemma RateStep(s: real, cap: u32, pvs: seq<real>)
    requires pvs != []
    ensures var front, pv := pvs[..|pvs| - 1], pvs[|pvs| - 1];
      Searched(s, cap, pvs).rate == Clamp(Searched(s, cap, front).rate + Output(GAINS, s, PidAfter(s, front), pv), cap)
    ensures Searched(s, cap, []).rate == START_RPS
  {
    PidInSearch(s, cap, pvs[..|pvs| - 1]);
  }

  lemma LaterRate(s: real, cap: u32, pvs: seq<real>, x: real)
    requires s > 0.0 && ErrorFree(pvs) && |pvs| >= 2 && x == |pvs| as real
    requires Searched(s, cap, pvs[..|pvs| - 1]).rate == Min(Uncapped(s, x - 1.0), cap as real)
    ensures Searched(s, cap, pvs).rate == Min(Uncapped(s, x), cap as real)
  {
    hide Searched, Output, Clamp, PidAfter, Increment, Uncapped;
    RateStep(s, cap, pvs);
    ErrorFreeOutput(s, pvs[..|pvs| - 1]);
    UncappedStep(s, x);
    UncappedAtLeast100(s, x - 1.0);
    IncrementPositive(s, x);
    MinCapAgain(Uncapped(s, x - 1.0), Increment(s, x), cap);
  }

  /** After n >= 1 error-free windows the rate is the quadratic, or the cap. */
  lemma {:induction false} ErrorFreeRate(s: real, cap: u32, pvs: seq<real>)
    requires s > 0.0 && ErrorFree(pvs) && pvs != []
    ensures Searched(s, cap, pvs).rate == Min(Uncapped(s, |pvs| as real), cap as real)
  {
    hide Searched, Output, Clamp, PidAfter, Increment, Uncapped;
    if |pvs| == 1 {
      RateStep(s, cap, pvs);
      ErrorFreeOutput(s, []);
      FirstWindow(s, cap);
    } else {
      ErrorFreeRate(s, cap, pvs[..|pvs| - 1]);
      LaterRate(s, cap, pvs, |pvs| as real);
    }
  }

  lemma FirstWindow(s: real, cap: u32)
    requires s > 0.0
    ensures Clamp(START_RPS + (Increment(s, 1.0) + 10.0 * s), cap) == Min(Uncapped(s, 1.0), cap as real)
  {
    assert s * 1.0 == s;
    assert s * (1.0 * 1.0 + 1.0) == 2.0 * s;
  }

  // ── When a window changes the rate by less than 2% ───────────────────────

  /** The sign of this quadratic decides window x. */
  function Margin(s: real, x: real): real {
    40.0 + s * (x * x - 81.0 * x - 1016.0)
  }

  lemma MarginIsGap(s: real, x: real)
    ensures 20.0 * (CONVERGE_PCT * Uncapped(s, x - 1.0) - Increment(s, x)) == Margin(s, x)
  {
    var y := x - 1.0;
    assert s * y == s * x - s;
    assert y * y + y == x * x - x;
    assert s * (x * x - x) == s * (x * x) - s * x;
    assert s * (x * x - 81.0 * x - 1016.0) == s * (x * x) - 81.0 * (s * x) - 1016.0 * s;
  }

  lemma ChangeUnder(before: real, after: real)
    requires 1.0 <= before <= after
    ensures Change(before, after) < CONVERGE_PCT <==> after - before < CONVERGE_PCT * before
  {
    var q := (after - before) / before;
    assert q * before == after - before;
    if q < CONVERGE_PCT {
      LessTimes(q, CONVERGE_PCT, before);
    } else {
      LeqTimes(CONVERGE_PCT, q, before);
    }
  }

  lemma NoChange(rate: real)
    ensures Change(rate, rate) == 0.0
  {
  }

  lemma LessTimes(x: real, y: real, k: real)
    requires x < y && k > 0.0
    ensures x * k < y * k
  {
  }

  lemma LeqTimes(x: real, y: real, k: real)
    requires x <= y && k > 0.0
    ensures x * k <= y * k
  {
  }

  lemma ErrorFreeSuccessive(s: real, cap: u32, pvs: seq<real>, k: nat)
    requires s > 0.0 && ErrorFree(pvs) && 2 <= k <= |pvs|
    ensures var u, d := Uncapped(s, k as real - 1.0), Increment(s, k as real);
      && RateAt(s, cap, pvs, k - 1) == Min(u, cap as real)
      && RateAt(s, cap, pvs, k) == Min(u + d, cap as real)
      && u >= 100.0 && d > 0.0
  {
    ErrorFreeRate(s, cap, pvs[..k - 1]);
    ErrorFreeRate(s, cap, pvs[..k]);
    UncappedStep(s, k as real);
    UncappedAtLeast100(s, k as real - 1.0);
    IncrementPositive(s, k as real);
    hide Uncapped, Increment, Searched;
  }

  /** A positive margin makes the window small, capped or not; as long as the
      cap is not reached, only a positive margin does. */
  lemma SmallByMargin(s: real, cap: u32, pvs: seq<real>, k: nat)
    requires s > 0.0 && ErrorFree(pvs) && 2 <= k <= |pvs|
    ensures Margin(s, k as real) > 0.0 ==> Small(s, cap, pvs, k)
    ensures Uncapped(s, k as real) <= cap as real ==> (Small(s, cap, pvs, k) <==> Margin(s, k as real) > 0.0)
  {
    ErrorFreeSuccessive(s, cap, pvs, k);
    MarginIsGap(s, k as real);
    UncappedStep(s, k as real);
    var u, d := Uncapped(s, k as real - 1.0), Increment(s, k as real);
    var before, after := RateAt(s, cap, pvs, k - 1), RateAt(s, cap, pvs, k);
    if cap == 0 {
      NoChange(before);
    } else {
      ChangeUnder(before, after);
      hide Uncapped, Increment, Margin, Change, RateAt, Searched;
      assert Small(s, cap, pvs, k) <==> after - before < CONVERGE_PCT * before;
    }
  }

  lemma LateMarginPositive(s: real, n: nat)
    requires s > 0.0 && n >= 93
    ensures Margin(s, n as real) > 0.0
  {
    var x := n as real;
    ProductNonNegative(x - 93.0, x + 12.0);
    assert x * x - 81.0 * x - 1016.0 == (x - 93.0) * (x + 12.0) + 100.0;
    assert s * (x * x - 81.0 * x - 1016.0) > 0.0;
  }

  /** For every positive setpoint and every cap, an error-free search has its
      streak of five by window 97. */
  lemma ErrorFreeConverges(s: real, cap: u32, pvs: seq<real>)
    requires s > 0.0 && ErrorFree(pvs) && |pvs| >= 97
    ensures Searched(s, cap, pvs).streak >= CONVERGE_N
  {
    StreakMeaning(s, cap, pvs);
    var streak := Searched(s, cap, pvs).streak;
    if streak < CONVERGE_N {
      var k := |pvs| - streak;
      LateMarginPositive(s, k);
      SmallByMargin(s, cap, pvs, k);
    }
  }

  // ── The exact stopping window of a search that never meets its cap ───────

  predicate Positive(s: real, n: nat) {
    Margin(s, n as real) > 0.0
  }

  /** First window from n on with a positive margin. */
  function LateFrom(s: real, n: nat): (k: nat)
    requires s > 0.0 && n <= 93
    ensures n <= k <= 93 && Positive(s, k)
    ensures forall i :: n <= i < k ==> !Positive(s, i)
    decreases 93 - n
  {
    if n == 93 then
      LateMarginPositive(s, n);
      n
    else if Positive(s, n) then n
    else LateFrom(s, n + 1)
  }

  /** Where an error-free search stops that never meets its cap: at window 5
      for a setpoint so low that the first five windows are small, else four
      windows after the margin turns positive for good. */
  function StopWindow(s: real): (n: nat)
    requires s > 0.0
  {
    if 349.0 * s < 10.0 then 5 else LateFrom(s, 41) + 4
  }

  /** The margin as seen from window m: the quadratic takes equal values m and
      81 - m windows in. */
  lemma MarginFrom(s: real, m: real, x: real)
    ensures Margin(s, x) == Margin(s, m) + s * ((x - m) * (x + m - 81.0))
  {
    assert (x - m) * (x + m - 81.0) == (x * x - 81.0 * x) - (m * m - 81.0 * m);
    assert s * ((x * x - 81.0 * x - 1016.0) - (m * m - 81.0 * m - 1016.0))
      == s * (x * x - 81.0 * x - 1016.0) - s * (m * m - 81.0 * m - 1016.0);
  }

  lemma MarginAt5(s: real)
    ensures Margin(s, 5.0) == 40.0 - 1396.0 * s
  {
    assert 5.0 * 5.0 - 81.0 * 5.0 - 1016.0 == -1396.0;
  }

  lemma EarlyMargin(s: real, n: nat)
    requires 0.0 < s && 349.0 * s < 10.0 && n <= 5
    ensures Margin(s, n as real) > 0.0
  {
    var x := n as real;
    hide Margin;
    MarginAt5(s);
    MarginFrom(s, 5.0, x);
    ProductNonNegative(5.0 - x, 76.0 - x);
    ProductNonNegative(s, (x - 5.0) * (x + 5.0 - 81.0));
  }

  lemma MiddleMargin(s: real, n: nat)
    requires 349.0 * s >= 10.0 && 5 <= n <= 76
    ensures Margin(s, n as real) <= 0.0
  {
    var x := n as real;
    hide Margin;
    MarginAt5(s);
    MarginFrom(s, 5.0, x);
    ProductNonNegative(x - 5.0, 76.0 - x);
    ProductNonNegative(s, (x - 5.0) * (76.0 - x));
    assert s * ((x - 5.0) * (x + 5.0 - 81.0)) == -(s * ((x - 5.0) * (76.0 - x)));
  }

  lemma MarginStaysPositive(s: real, k: nat, n: nat)
    requires s > 0.0 && 41 <= k <= n && Margin(s, k as real) > 0.0
    ensures Margin(s, n as real) > 0.0
  {
    var m, x := k as real, n as real;
    hide Margin;
    MarginFrom(s, m, x);
    ProductNonNegative(x - m, x + m - 81.0);
    ProductNonNegative(s, (x - m) * (x + m - 81.0));
  }

  /** From window 5 on the margin is positive exactly from LateFrom(s, 41) on. */
  lemma MarginSign(s: real, n: nat)
    requires 349.0 * s >= 10.0 && n >= 5
    ensures Margin(s, n as real) > 0.0 <==> n >= LateFrom(s, 41)
    ensures LateFrom(s, 41) >= 77
  {
    var k := LateFrom(s, 41);
    assert Positive(s, n) <==> Margin(s, n as real) > 0.0;
    hide Margin, LateFrom;
    if k <= 76 {
      MiddleMargin(s, k);
    }
    if n >= k {
      MarginStaysPositive(s, k, n);
    } else if n <= 76 {
      MiddleMargin(s, n);
    }
  }

  /** For a setpoint of 0.4% and up (the default is 1%) it stops at window 96,
      or 97 from a setpoint of 10% on: the bound of 97 cannot be lowered. */
  lemma UsualStopWindow(s: real)
    requires s >= 0.4
    ensures StopWindow(s) == if s < 10.0 then 96 else 97
  {
    assert Margin(s, 92.0) == 40.0 - 4.0 * s by {
      assert 92.0 * 92.0 - 81.0 * 92.0 - 1016.0 == -4.0;
    }
    assert Margin(s, 91.0) == 40.0 - 106.0 * s by {
      assert 91.0 * 91.0 - 81.0 * 91.0 - 1016.0 == -106.0;
    }
    hide Margin, LateFrom;
    MarginSign(s, 91);
    MarginSign(s, 92);
  }

  lemma StartChange(s: real)
    requires s > 0.0
    ensures Change(100.0, Uncapped(s, 1.0)) < CONVERGE_PCT <==> 65.0 * s < 2.0
  {
    assert s * (1.0 * 1.0 + 1.0) == 2.0 * s;
  }

  /** How window n changes the rate below the cap. */
  predicate SmallBelowCap(s: real, n: nat) {
    if n == 1 then 65.0 * s < 2.0 else Positive(s, n)
  }

  /** The streak after n windows below the cap. */
  function Run(s: real, n: nat): (r: nat)
    ensures r <= n
  {
    if n == 0 then 0 else if SmallBelowCap(s, n) then Run(s, n - 1) + 1 else 0
  }

  lemma {:induction false} EarlyRun(s: real, n: nat)
    requires 0.0 < s && 349.0 * s < 10.0 && n <= 5
    ensures Run(s, n) == n
  {
    if n > 0 {
      EarlyMargin(s, n);
      hide Margin;
      EarlyRun(s, n - 1);
    }
  }

  /** Window 5 is not small, nor any later one before the margin turns
      positive for good. */
  lemma {:induction false} LateRun(s: real, n: nat)
    requires 349.0 * s >= 10.0
    ensures var k := LateFrom(s, 41); if n < 5 then Run(s, n) < 5 else Run(s, n) == if n < k then 0 else n - k + 1
  {
    if n >= 5 {
      hide Margin, LateFrom;
      MarginSign(s, n);
      LateRun(s, n - 1);
    }
  }

  lemma RunStops(s: real, n: nat)
    requires s > 0.0 && n <= StopWindow(s)
    ensures Run(s, n) >= CONVERGE_N <==> n == StopWindow(s)
    ensures StopWindow(s) == 5 || 81 <= StopWindow(s) <= 97
  {
    hide Run, LateFrom;
    if 349.0 * s < 10.0 {
      EarlyRun(s, n);
    } else {
      MarginSign(s, 5);
      LateRun(s, n);
    }
  }

  lemma FirstWindowSmall(s: real, cap: u32, pvs: seq<real>)
    requires s > 0.0 && ErrorFree(pvs) && |pvs| == 1 && Uncapped(s, 1.0) <= cap as real
    ensures Small(s, cap, pvs, 1) <==> 65.0 * s < 2.0
  {
    assert Searched(s, cap, []).rate == 100.0;
    hide Searched, Change, Uncapped;
    UncappedAtLeast100(s, 1.0);
    ErrorFreeRate(s, cap, pvs);
    StartChange(s);
    assert pvs[..1] == pvs && pvs[..0] == [];
  }

  lemma UncappedGrows(s: real, n: nat)
    requires s > 0.0 && n >= 1
    ensures Uncapped(s, n as real - 1.0) < Uncapped(s, n as real)
  {
    UncappedStep(s, n as real);
    IncrementPositive(s, n as real);
  }

  lemma {:induction false} UncappedBefore(s: real, k: nat, n: nat)
    requires s > 0.0 && k <= n
    ensures Uncapped(s, k as real) <= Uncapped(s, n as real)
    ensures k < n ==> Uncapped(s, k as real) < Uncapped(s, n as real)
  {
    hide Uncapped;
    if k < n {
      UncappedGrows(s, n);
      UncappedBefore(s, k, n - 1);
    }
  }

  /** Below the cap the streak follows the margin. */
  lemma {:induction false} StreakIsRun(s: real, cap: u32, pvs: seq<real>)
    requires s > 0.0 && ErrorFree(pvs) && (pvs == [] || Uncapped(s, |pvs| as real) <= cap as real)
    ensures Searched(s, cap, pvs).streak == Run(s, |pvs|)
  {
    if pvs != [] {
      var n := |pvs|;
      UncappedBefore(s, n - 1, n);
      LatestStreak(s, cap, pvs);
      if n == 1 {
        FirstWindowSmall(s, cap, pvs);
      } else {
        SmallByMargin(s, cap, pvs, n);
      }
      hide Margin, Uncapped, Searched, Small;
      StreakIsRun(s, cap, pvs[..n - 1]);
    }
  }

  // ── The exact stopping window for every cap ──────────────────────────────

  predicate AtCap(s: real, cap: u32, n: nat) {
    Uncapped(s, n as real) >= cap as real
  }

  lemma CapNearer(s: real, cap: u32, n: nat)
    requires s > 0.0
    ensures (cap as real - Uncapped(s, n as real + 1.0)) / (50.0 * s) <= (cap as real - Uncapped(s, n as real)) / (50.0 * s) - 1.0
  {
    var d, x, y := 50.0 * s, cap as real - Uncapped(s, n as real), cap as real - Uncapped(s, n as real + 1.0);
    UncappedStep(s, n as real + 1.0);
    ProductNonNegative(s, n as real + 1.0);
    hide Uncapped;
    assert x - y >= d;
    QuotientDrops(x, y, d);
  }

  lemma QuotientDrops(x: real, y: real, d: real)
    requires d > 0.0 && x - y >= d
    ensures y / d <= x / d - 1.0
  {
    assert x / d * d == x && y / d * d == y;
    if y / d > x / d - 1.0 {
      LessTimes(x / d - 1.0, y / d, d);
    }
  }

  /** The first window from n on whose rate is at the cap. */
  function CapFrom(s: real, cap: u32, n: nat): (m: nat)
    requires s > 0.0
    ensures m >= n && AtCap(s, cap, m)
    ensures forall i :: n <= i < m ==> !AtCap(s, cap, i)
    decreases if AtCap(s, cap, n) then 0 else ((cap as real - Uncapped(s, n as real)) / (50.0 * s)).Floor + 1
  {
    if AtCap(s, cap, n) then n
    else
      CapNearer(s, cap, n);
      CapFrom(s, cap, n + 1)
  }

  /** The window that reaches the cap changes the rate by less than 2%. */
  predicate CapSmall(s: real, cap: u32, m: nat)
    requires m >= 1
  {
    Change(if m == 1 then START_RPS else Uncapped(s, m as real - 1.0), cap as real) < CONVERGE_PCT
  }

  /** Where an error-free search stops: as if there were no cap if it never
      meets it first, else five windows after reaching it, or earlier by the
      streak that the window reaching it extends. */
  function Stop(s: real, cap: u32): (n: nat)
    requires s > 0.0
  {
    var m := CapFrom(s, cap, 1);
    if StopWindow(s) < m then StopWindow(s)
    else if CapSmall(s, cap, m) then m + 4 - Run(s, m - 1)
    else m + 5
  }

  lemma RateAtCap(s: real, cap: u32, pvs: seq<real>, k: nat)
    requires s > 0.0 && ErrorFree(pvs) && 1 <= k <= |pvs| && CapFrom(s, cap, 1) <= k
    ensures RateAt(s, cap, pvs, k) == cap as real
  {
    ErrorFreeRate(s, cap, pvs[..k]);
    UncappedBefore(s, CapFrom(s, cap, 1), k);
    assert AtCap(s, cap, CapFrom(s, cap, 1));
    hide Uncapped, CapFrom;
  }

  lemma RateBelowCap(s: real, cap: u32, pvs: seq<real>, k: nat)
    requires s > 0.0 && ErrorFree(pvs) && k <= |pvs| && k < CapFrom(s, cap, 1)
    ensures RateAt(s, cap, pvs, k) == if k == 0 then START_RPS else Uncapped(s, k as real)
    ensures k == 0 || Uncapped(s, k as real) <= cap as real
  {
    if k > 0 {
      ErrorFreeRate(s, cap, pvs[..k]);
      assert !AtCap(s, cap, k);
    }
  }

  lemma ReachingCap(s: real, cap: u32, pvs: seq<real>, m: nat)
    requires s > 0.0 && ErrorFree(pvs) && m == CapFrom(s, cap, 1) <= |pvs|
    ensures Small(s, cap, pvs, m) <==> CapSmall(s, cap, m)
  {
    hide Uncapped, Searched, Change, CapFrom;
    RateBelowCap(s, cap, pvs, m - 1);
    RateAtCap(s, cap, pvs, m);
    assert (m - 1) as real == m as real - 1.0;
  }

  lemma StayingAtCap(s: real, cap: u32, pvs: seq<real>, k: nat)
    requires s > 0.0 && ErrorFree(pvs) && CapFrom(s, cap, 1) < k <= |pvs|
    ensures Small(s, cap, pvs, k)
  {
    RateAtCap(s, cap, pvs, k - 1);
    RateAtCap(s, cap, pvs, k);
    NoChange(cap as real);
    hide Searched, Change, CapFrom;
  }

  lemma StreakBeforeCap(s: real, cap: u32, pvs: seq<real>)
    requires s > 0.0 && ErrorFree(pvs) && |pvs| < CapFrom(s, cap, 1)
    ensures Searched(s, cap, pvs).streak == Run(s, |pvs|)
  {
    hide Uncapped, Searched, Run, CapFrom;
    RateBelowCap(s, cap, pvs, |pvs|);
    StreakIsRun(s, cap, pvs);
  }

  /** From the window that reaches the cap on every later one is small. */
  lemma {:induction false} StreakAtCap(s: real, cap: u32, pvs: seq<real>)
    requires s > 0.0 && ErrorFree(pvs) && CapFrom(s, cap, 1) <= |pvs|
    ensures var m := CapFrom(s, cap, 1);
      Searched(s, cap, pvs).streak == (if CapSmall(s, cap, m) then Run(s, m - 1) + 1 else 0) + (|pvs| - m)
  {
    var n, m := |pvs|, CapFrom(s, cap, 1);
    hide Searched, Run, CapFrom, CapSmall, Small;
    LatestStreak(s, cap, pvs);
    if n == m {
      ReachingCap(s, cap, pvs, m);
      StreakBeforeCap(s, cap, pvs[..n - 1]);
    } else {
      StayingAtCap(s, cap, pvs, n);
      StreakAtCap(s, cap, pvs[..n - 1]);
    }
  }

  /** Until it stops, an error-free search has a complete streak at exactly
      window Stop(s, cap), for every positive setpoint and every cap. */
  lemma StopsExactly(s: real, cap: u32, pvs: seq<real>)
    requires s > 0.0 && ErrorFree(pvs) && |pvs| <= Stop(s, cap)
    ensures Searched(s, cap, pvs).streak >= CONVERGE_N <==> |pvs| == Stop(s, cap)
  {
    var n, m := |pvs|, CapFrom(s, cap, 1);
    if StopWindow(s) >= m {
      RunStops(s, m - 1);
    }
    hide Searched, Run, CapFrom, StopWindow, CapSmall;
    if n < m {
      StreakBeforeCap(s, cap, pvs);
      RunStops(s, n);
    } else {
      StreakAtCap(s, cap, pvs);
    }
  }

  function Zeros(n: nat): (pvs: seq<real>)
    ensures |pvs| == n && ErrorFree(pvs)
  {
    seq(n, _ => 0.0)
  }

  /** No search needs more than 97 windows or fewer than five, and one whose
      cap is out of reach stops as if it had none. */
  lemma StopBounds(s: real, cap: u32)
    requires s > 0.0
    ensures 5 <= Stop(s, cap) <= 97
    ensures Uncapped(s, StopWindow(s) as real) <= cap as real ==> Stop(s, cap) == StopWindow(s)
  {
    if Stop(s, cap) > 97 {
      ErrorFreeConverges(s, cap, Zeros(97));
      StopsExactly(s, cap, Zeros(97));
    }
    StopsExactly(s, cap, Zeros(Stop(s, cap)));
    StreakMeaning(s, cap, Zeros(Stop(s, cap)));
    var k, m := StopWindow(s), CapFrom(s, cap, 1);
    if Uncapped(s, k as real) <= cap as real && k >= m {
      UncappedBefore(s, m, k);
      assert AtCap(s, cap, m);
      hide Uncapped, Searched, Run, CapFrom, StopWindow, CapSmall;
      RunStops(s, k);
      StreakIsRun(s, cap, Zeros(k));
      RunStops(s, m - 1);
      StopsExactly(s, cap, Zeros(k));
    }
  }

  lemma UnitRateAt96()
    ensures Uncapped(1.0, 96.0) == 28190.0
  {
  }

  /** At a setpoint of 1% and a cap of at least 28190 that is window 96, at
      a rate of exactly 28190. */
  lemma UnitSetpoint(cap: u32, pvs: seq<real>)
    requires cap >= 28190 && ErrorFree(pvs) && |pvs| == 96
    ensures Searched(1.0, cap, pvs).streak == CONVERGE_N
    ensures Going(1.0, cap, pvs, 96)
    ensures Searched(1.0, cap, pvs).rate == 28190.0
  {
    UnitRateAt96();
    UsualStopWindow(1.0);
    StopBounds(1.0, cap);
    ErrorFreeRate(1.0, cap, pvs);
    hide Searched, Stop, Uncapped, StopWindow;
    StopsExactly(1.0, cap, pvs);
    forall k | 0 <= k < 96
      ensures Searched(1.0, cap, pvs[..k]).streak < CONVERGE_N
    {
      StopsExactly(1.0, cap, pvs[..k]);
    }
    LatestIsFive(1.0, cap, pvs);
  }

  lemma LatestIsFive(target: real, cap: u32, pvs: seq<real>)
    requires Searched(target, cap, pvs).streak >= CONVERGE_N
    requires Searched(target, cap, pvs[..|pvs| - (if pvs == [] then 0 else 1)]).streak < CONVERGE_N
    ensures Searched(target, cap, pvs).streak == CONVERGE_N
  {
  }
}
