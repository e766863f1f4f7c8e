/** The streaming collector of src/stats.rs. */
module Stats {
  import opened Prelude

  datatype ErrorKind = Timeout | DnsRejected(code: u16) | Transport

  datatype Outcome = Outcome(latencyUs: u64, error: Option<ErrorKind>)

  datatype RunReport = RunReport(
    totalSent: nat, totalOk: nat, totalErr: nat,
    minUs: u64, meanUs: real, maxUs: u64,
    totalTimeout: nat, totalDnsError: nat, totalTransport: nat,
    dnsCodes: seq<(u16, nat)>)

  // ── Direct definitions ───────────────────────────────────────────────────

  function IsOk(o: Outcome): nat { if o.error.None? then 1 else 0 }

  function IsErr(o: Outcome): nat { if o.error.Some? then 1 else 0 }

  function IsTimeout(o: Outcome): nat { if o.error == Some(Timeout) then 1 else 0 }

  function IsTransport(o: Outcome): nat { if o.error == Some(Transport) then 1 else 0 }

  function IsDns(o: Outcome): nat { if o.error.Some? && o.error.value.DnsRejected? then 1 else 0 }

  function Latency(o: Outcome): nat { o.latencyUs }

  function Latencies(os: seq<Outcome>): seq<nat> {
    seq(|os|, i requires 0 <= i < |os| => os[i].latencyUs)
  }

  function HasCode(code: u16): Outcome -> nat {
    (o: Outcome) => if o.error == Some(DnsRejected(code)) then 1 else 0
  }

  function CodeIn(codes: set<u16>): Outcome -> nat {
    (o: Outcome) => if o.error.Some? && o.error.value.DnsRejected? && o.error.value.code in codes then 1 else 0
  }

  function CodeCount(os: seq<Outcome>, code: u16): nat {
    Sum(os, HasCode(code))
  }

  ghost predicate SortedByCount(codes: seq<(u16, nat)>) {
    forall i, j :: 0 <= i < j < |codes| ==> codes[i].1 >= codes[j].1
  }

  ghost predicate DistinctCodes(codes: seq<(u16, nat)>) {
    forall i, j :: 0 <= i < j < |codes| ==> codes[i].0 != codes[j].0
  }

  /** The breakdown lists every rejected code once, with its multiplicity,
      most frequent first. */
  ghost predicate IsHistogram(os: seq<Outcome>, codes: seq<(u16, nat)>) {
    && DistinctCodes(codes)
    && SortedByCount(codes)
    && forall code: u16, n: nat :: (code, n) in codes <==> n > 0 && n == CodeCount(os, code)
  }

  ghost predicate IsMin(os: seq<Outcome>, m: nat) {
    && (exists o :: o in os && o.latencyUs == m)
    && forall o :: o in os ==> m <= o.latencyUs
  }

  ghost predicate IsMax(os: seq<Outcome>, m: nat) {
    && (exists o :: o in os && o.latencyUs == m)
    && forall o :: o in os ==> o.latencyUs <= m
  }

  ghost predicate Extremes(os: seq<Outcome>, lo: nat, hi: nat, mean: real) {
    if os == [] then (lo == 0 && hi == 0 && mean == 0.0)
    else (IsMin(os, lo) && IsMax(os, hi) && mean == Sum(os, Latency) as real / |os| as real)
  }

  /** What the report must say about the outcomes, by direct definition. */
  ghost predicate Summarises(os: seq<Outcome>, r: RunReport) {
    && r.totalSent == |os|
    && r.totalOk == Sum(os, IsOk)
    && r.totalErr == Sum(os, IsErr)
    && r.totalTimeout == Sum(os, IsTimeout)
    && r.totalDnsError == Sum(os, IsDns)
    && r.totalTransport == Sum(os, IsTransport)
    && Extremes(os, r.minUs, r.maxUs, r.meanUs)
    && IsHistogram(os, r.dnsCodes)
  }

  // ── The collector loop ───────────────────────────────────────────────────

  function WelfordStep(mean: real, x: nat, n: nat): real
    requires n > 0
  {
    mean + (x as real - mean) / n as real
  }

  lemma WelfordStepIsMean(mean: real, x: nat, n: nat, sum: nat)
    requires n > 0
    requires mean * (n - 1) as real == sum as real
    ensures WelfordStep(mean, x, n) * n as real == (sum + x) as real
  {
    var k, d := n as real, x as real - mean;
    assert d / k * k == d;
    assert (mean + d / k) * k == mean * k + d / k * k;
    assert mean * k == mean * (n - 1) as real + mean;
  }

  /** The error counters after a prefix of the arrivals. */
  ghost predicate Tallied(os: seq<Outcome>, ok: nat, err: nat, timeout: nat, dns: nat, transport: nat) {
    && ok == Sum(os, IsOk) && err == Sum(os, IsErr) && timeout == Sum(os, IsTimeout)
    && dns == Sum(os, IsDns) && transport == Sum(os, IsTransport)
  }

  ghost predicate IsRunningMean(os: seq<Outcome>, mean: real) {
    mean * |os| as real == Sum(os, Latency) as real
  }

  lemma MeanStep(xs: seq<Outcome>, o: Outcome, mean: real)
    requires IsRunningMean(xs, mean)
    ensures IsRunningMean(xs + [o], WelfordStep(mean, o.latencyUs, |xs| + 1))
  {
    var n, sum := |xs| + 1, Sum(xs, Latency);
    WelfordStepIsMean(mean, o.latencyUs, n, sum);
    SumAppend(xs, o, Latency);
    assert |xs + [o]| == n;
  }

  /** Running minimum and maximum, from their initial values. */
  ghost predicate Spanned(os: seq<Outcome>, lo: nat, hi: nat) {
    if os == [] then (lo == U64_MODULUS - 1 && hi == 0) else (IsMin(os, lo) && IsMax(os, hi))
  }

  lemma SpannedStep(os: seq<Outcome>, i: nat, lo: nat, hi: nat)
    requires i < |os| && Spanned(os[..i], lo, hi)
    ensures var x := os[i].latencyUs; Spanned(os[..i + 1], if x < lo then x else lo, if x > hi then x else hi)
  {
    assert os[..i + 1] == os[..i] + [os[i]];
    MinStep(os[..i], os[i], lo);
    MaxStep(os[..i], os[i], hi);
  }

  /** The latency figures after a prefix of the arrivals, before the final
      report replaces the minimum of an empty run by zero. */
  ghost predicate Timed(os: seq<Outcome>, lo: nat, hi: nat, mean: real) {
    IsRunningMean(os, mean) && (os == [] ==> mean == 0.0) && Spanned(os, lo, hi)
  }

  lemma TallyStep(os: seq<Outcome>, i: nat, ok: nat, err: nat, timeout: nat, dns: nat, transport: nat)
    requires i < |os| && Tallied(os[..i], ok, err, timeout, dns, transport)
    ensures Tallied(os[..i + 1], ok + IsOk(os[i]), err + IsErr(os[i]), timeout + IsTimeout(os[i]),
                    dns + IsDns(os[i]), transport + IsTransport(os[i]))
  {
    PrefixStep(os, i, IsOk);
    PrefixStep(os, i, IsErr);
    PrefixStep(os, i, IsTimeout);
    PrefixStep(os, i, IsDns);
    PrefixStep(os, i, IsTransport);
  }

  lemma MinStep(xs: seq<Outcome>, o: Outcome, lo: nat)
    requires if xs == [] then lo == U64_MODULUS - 1 else IsMin(xs, lo)
    ensures IsMin(xs + [o], if o.latencyUs < lo then o.latencyUs else lo)
  {
    var ys := xs + [o];
    assert ys[|xs|] == o;
    assert forall x :: x in ys <==> x in xs || x == o;
  }

  lemma MaxStep(xs: seq<Outcome>, o: Outcome, hi: nat)
    requires if xs == [] then hi == 0 else IsMax(xs, hi)
    ensures IsMax(xs + [o], if o.latencyUs > hi then o.latencyUs else hi)
  {
    var ys := xs + [o];
    assert ys[|xs|] == o;
    assert forall x :: x in ys <==> x in xs || x == o;
  }

  lemma TimedStep(os: seq<Outcome>, i: nat, lo: nat, hi: nat, mean: real)
    requires i < |os| && Timed(os[..i], lo, hi, mean)
    ensures var x := os[i].latencyUs;
      Timed(os[..i + 1], if x < lo then x else lo, if x > hi then x else hi, WelfordStep(mean, x, i + 1))
  {
    assert os[..i + 1] == os[..i] + [os[i]];
    MeanStep(os[..i], os[i], mean);
    SpannedStep(os, i, lo, hi);
  }

  lemma TimedIsExtremes(os: seq<Outcome>, lo: nat, hi: nat, mean: real)
    requires Timed(os, lo, hi, mean)
    ensures Extremes(os, if |os| == 0 then 0 else lo, hi, mean)
  {
    if os != [] {
      MeanFromProduct(mean, |os|, Sum(os, Latency));
    }
  }

  lemma PrefixStep(os: seq<Outcome>, i: nat, f: Outcome -> nat)
    requires i < |os|
    ensures Sum(os[..i + 1], f) == Sum(os[..i], f) + f(os[i])
  {
    assert os[..i + 1] == os[..i] + [os[i]];
    SumAppend(os[..i], os[i], f);
  }

  ghost predicate CountsPrefix(os: seq<Outcome>, m: map<u16, nat>) {
    forall code: u16 ::
      if CodeCount(os, code) > 0 then code in m && m[code] == CodeCount(os, code) else code !in m
  }

  function Bump(m: map<u16, nat>, code: u16): map<u16, nat> {
    m[code := (if code in m then m[code] else 0) + 1]
  }

  lemma CountsPrefixStep(os: seq<Outcome>, i: nat, m: map<u16, nat>)
    requires i < |os| && CountsPrefix(os[..i], m)
    ensures CountsPrefix(os[..i + 1],
      if os[i].error.Some? && os[i].error.value.DnsRejected? then Bump(m, os[i].error.value.code) else m)
  {
    forall code: u16
      ensures CodeCount(os[..i + 1], code) == CodeCount(os[..i], code) + HasCode(code)(os[i])
    {
      PrefixStep(os, i, HasCode(code));
    }
  }

  /** Drains the channel into a report; the arrival order is the sequence's. */
  method Collect(os: seq<Outcome>) returns (r: RunReport)
    ensures Summarises(os, r)
  {
    var totalSent, totalOk, totalErr := 0, 0, 0;
    var minUs: u64, maxUs: u64 := U64_MODULUS - 1, 0;
    var mean := 0.0;
    var totalTimeout, totalDnsError, totalTransport := 0, 0, 0;
    var codeMap: map<u16, nat> := map[];

    assert os[..0] == [];
    while totalSent < |os|
      invariant totalSent <= |os|
      invariant Tallied(os[..totalSent], totalOk, totalErr, totalTimeout, totalDnsError, totalTransport)
      invariant Timed(os[..totalSent], minUs, maxUs, mean)
      invariant CountsPrefix(os[..totalSent], codeMap)
    {
      var o := os[totalSent];
      TallyStep(os, totalSent, totalOk, totalErr, totalTimeout, totalDnsError, totalTransport);
      TimedStep(os, totalSent, minUs, maxUs, mean);
      CountsPrefixStep(os, totalSent, codeMap);

      totalSent := totalSent + 1;
      if o.error.None? {
        totalOk := totalOk + 1;
      } else {
        totalErr := totalErr + 1;
        match o.error.value {
          case Timeout => totalTimeout := totalTimeout + 1;
          case DnsRejected(code) =>
            totalDnsError := totalDnsError + 1;
            codeMap := Bump(codeMap, code);
          case Transport => totalTransport := totalTransport + 1;
        }
      }
      if o.latencyUs < minUs { minUs := o.latencyUs; }
      if o.latencyUs > maxUs { maxUs := o.latencyUs; }
      mean := WelfordStep(mean, o.latencyUs, totalSent);
    }
    assert os[..totalSent] == os;

    var dnsCodes := SortedHistogram(os, codeMap);
    r := RunReport(totalSent, totalOk, totalErr,
                   if totalSent == 0 then 0 else minUs, mean, maxUs,
                   totalTimeout, totalDnsError, totalTransport, dnsCodes);
    TimedIsExtremes(os, minUs, maxUs, mean);
  }

  lemma MeanFromProduct(mean: real, n: nat, sum: nat)
    requires n > 0 && mean * n as real == sum as real
    ensures mean == sum as real / n as real
  {
  }

  /** Moves the map into a vector, in whatever order the map yields, and sorts it. */
  method SortedHistogram(ghost os: seq<Outcome>, codeMap: map<u16, nat>) returns (codes: seq<(u16, nat)>)
    requires CountsPrefix(os, codeMap)
    ensures IsHistogram(os, codes)
  {
    var entries: seq<(u16, nat)> := [];
    var rest := codeMap.Keys;
    while rest != {}
      invariant rest <= codeMap.Keys
      invariant DistinctCodes(entries)
      invariant forall e :: e in entries ==> e.0 in codeMap && e.0 !in rest && e.1 == codeMap[e.0]
      invariant forall code :: code in codeMap && code !in rest ==> (code, codeMap[code]) in entries
      decreases |rest|
    {
      var code :| code in rest;
      entries := entries + [(code, codeMap[code])];
      rest := rest - {code};
    }
    var a := new (u16, nat)[|entries|](i requires 0 <= i < |entries| => entries[i]);
    assert a[..] == entries;
    SortByCount(a);
    codes := a[..];
    SortKeepsDistinct(entries, codes);
    forall code: u16, n: nat
      ensures (code, n) in codes <==> n > 0 && n == CodeCount(os, code)
    {
      assert (code, n) in codes <==> (code, n) in multiset(codes);
      assert (code, n) in entries <==> (code, n) in multiset(entries);
    }
  }

  lemma SortKeepsDistinct(xs: seq<(u16, nat)>, ys: seq<(u16, nat)>)
    requires DistinctCodes(xs) && multiset(xs) == multiset(ys)
    ensures DistinctCodes(ys)
  {
    forall i, j | 0 <= i < j < |ys|
      ensures ys[i].0 != ys[j].0
    {
      assert ys[i] in multiset(ys) && ys[j] in multiset(ys);
      assert ys[i] in xs && ys[j] in xs;
      if ys[i] == ys[j] {
        assert ys == ys[..i] + [ys[i]] + ys[i + 1..j] + [ys[j]] + ys[j + 1..];
        OccursOnce(xs, ys[i]);
      }
    }
  }

  lemma OccursOnce(xs: seq<(u16, nat)>, e: (u16, nat))
    requires DistinctCodes(xs) && e in xs
    ensures multiset(xs)[e] == 1
  {
    var p :| 0 <= p < |xs| && xs[p] == e;
    assert xs == xs[..p] + [xs[p]] + xs[p + 1..];
    assert e !in xs[..p] && e !in xs[p + 1..];
  }

  method SwapWithPrevious(a: array<(u16, nat)>, j: nat)
    requires 0 < j < a.Length
    modifies a
    ensures a[j] == old(a[j - 1]) && a[j - 1] == old(a[j])
    ensures forall k :: 0 <= k < a.Length && k != j && k != j - 1 ==> a[k] == old(a[k])
    ensures multiset(a[..]) == multiset(old(a[..]))
  {
    a[j - 1], a[j] := a[j], a[j - 1];
  }

  /** In-place stable sort, most frequent code first. */
  method SortByCount(a: array<(u16, nat)>)
    modifies a
    ensures SortedByCount(a[..]) && forall i, j :: 0 <= i < j < a.Length ==> a[i].1 >= a[j].1
    ensures multiset(a[..]) == multiset(old(a[..]))
  {
    var i := 0;
    while i < a.Length
      invariant 0 <= i <= a.Length
      invariant forall p, q :: 0 <= p < q < i ==> a[p].1 >= a[q].1
      invariant multiset(a[..]) == multiset(old(a[..]))
    {
      var j := i;
      while j > 0 && a[j - 1].1 < a[j].1
        invariant 0 <= j <= i
        invariant forall p, q :: 0 <= p < q <= i && q != j ==> a[p].1 >= a[q].1
        invariant multiset(a[..]) == multiset(old(a[..]))
      {
        SwapWithPrevious(a, j);
        j := j - 1;
      }
      i := i + 1;
    }
  }

  // ── What the report means ────────────────────────────────────────────────

  lemma SumMiddle<T>(front: seq<T>, x: T, back: seq<T>, f: T -> nat)
    ensures Sum((front + [x]) + back, f) == Sum(front + back, f) + f(x)
  {
    SumConcat(front, back, f);
    SumConcat(front + [x], back, f);
    SumAppend(front, x, f);
  }

  lemma MultisetMiddle<T>(front: seq<T>, x: T, back: seq<T>)
    ensures multiset(front + back) == multiset((front + [x]) + back) - multiset{x}
  {
    assert multiset((front + [x]) + back) == multiset(front) + multiset{x} + multiset(back);
  }

  lemma SplitAt<T>(ys: seq<T>, j: nat)
    requires j < |ys|
    ensures ys == (ys[..j] + [ys[j]]) + ys[j + 1..]
  {
  }

  lemma RemoveOne<T>(ys: seq<T>, j: nat, f: T -> nat)
    requires j < |ys|
    ensures Sum(ys, f) == Sum(ys[..j] + ys[j + 1..], f) + f(ys[j])
    ensures multiset(ys[..j] + ys[j + 1..]) == multiset(ys) - multiset{ys[j]}
  {
    var front, x, back := ys[..j], ys[j], ys[j + 1..];
    SplitAt(ys, j);
    SumMiddle(front, x, back, f);
    MultisetMiddle(front, x, back);
  }

  lemma {:induction false} SumPermutation<T>(xs: seq<T>, ys: seq<T>, f: T -> nat)
    requires multiset(xs) == multiset(ys)
    ensures Sum(xs, f) == Sum(ys, f)
  {
    if xs == [] {
      assert |ys| == |multiset(ys)| == 0;
    } else {
      var n := |xs| - 1;
      SameElements(xs, ys, xs[n]);
      var j :| 0 <= j < |ys| && ys[j] == xs[n];
      RemoveOne(xs, n, f);
      RemoveOne(ys, j, f);
      assert xs[..n] + xs[n + 1..] == xs[..n];
      SumPermutation(xs[..n], ys[..j] + ys[j + 1..], f);
    }
  }

  lemma SameElements<T>(xs: seq<T>, ys: seq<T>, x: T)
    requires multiset(xs) == multiset(ys)
    ensures x in xs <==> x in ys
  {
    assert x in xs <==> x in multiset(xs);
    assert x in ys <==> x in multiset(ys);
  }

  lemma SameExtremes(xs: seq<Outcome>, ys: seq<Outcome>, m: nat)
    requires multiset(xs) == multiset(ys)
    ensures IsMin(xs, m) ==> IsMin(ys, m)
    ensures IsMax(xs, m) ==> IsMax(ys, m)
  {
    forall o: Outcome
      ensures o in xs <==> o in ys
    {
      SameElements(xs, ys, o);
    }
  }

  /** Arrival order does not matter: two reports of the same outcomes in any
      two orders agree on every scalar and list the same codes and counts. */
  lemma OrderFree(xs: seq<Outcome>, ys: seq<Outcome>, r: RunReport, q: RunReport)
    requires multiset(xs) == multiset(ys)
    requires Summarises(xs, r) && Summarises(ys, q)
    ensures r.(dnsCodes := []) == q.(dnsCodes := [])
    ensures forall code, n :: (code, n) in r.dnsCodes <==> (code, n) in q.dnsCodes
  {
    assert |xs| == |multiset(xs)| && |ys| == |multiset(ys)|;
    SumPermutation(xs, ys, IsOk);
    SumPermutation(xs, ys, IsErr);
    SumPermutation(xs, ys, IsTimeout);
    SumPermutation(xs, ys, IsDns);
    SumPermutation(xs, ys, IsTransport);
    SumPermutation(xs, ys, Latency);
    SameExtremes(xs, ys, r.minUs);
    SameExtremes(xs, ys, r.maxUs);
    forall code: u16
      ensures CodeCount(xs, code) == CodeCount(ys, code)
    {
      SumPermutation(xs, ys, HasCode(code));
    }
  }

  lemma {:induction false} LatencySumBounds(os: seq<Outcome>, lo: nat, hi: nat)
    requires forall i :: 0 <= i < |os| ==> lo <= os[i].latencyUs <= hi
    ensures lo * |os| <= Sum(os, Latency) <= hi * |os|
  {
    if os != [] {
      var n := |os| - 1;
      LatencySumBounds(os[..n], lo, hi);
      MulSucc(lo, n);
      MulSucc(hi, n);
    }
  }

  lemma NonNegativeFactor(a: real, k: real)
    requires k > 0.0 && a * k >= 0.0
    ensures a >= 0.0
  {
  }

  lemma DivideBounds(x: real, k: real, lo: real, hi: real)
    requires k > 0.0 && lo * k <= x <= hi * k
    ensures lo <= x / k <= hi
  {
    var q := x / k;
    assert q * k == x;
    NonNegativeFactor(q - lo, k);
    NonNegativeFactor(hi - q, k);
  }

  lemma CastProduct(a: nat, n: nat)
    ensures (a * n) as real == a as real * n as real
  {
  }

  lemma QuotientBetween(sum: nat, n: nat, lo: nat, hi: nat)
    requires n > 0 && lo * n <= sum <= hi * n
    ensures lo as real <= sum as real / n as real <= hi as real
  {
    CastProduct(lo, n);
    CastProduct(hi, n);
    DivideBounds(sum as real, n as real, lo as real, hi as real);
  }

  lemma MeanBetweenExtremes(os: seq<Outcome>, r: RunReport)
    requires os != [] && Summarises(os, r)
    ensures r.minUs as real <= r.meanUs <= r.maxUs as real
  {
    LatencySumBounds(os, r.minUs, r.maxUs);
    QuotientBetween(Sum(os, Latency), |os|, r.minUs, r.maxUs);
  }

  /** Every outcome is counted once: as a success, or under one error kind. */
  lemma {:induction false} BreakdownComplete(os: seq<Outcome>)
    ensures |os| == Sum(os, IsOk) + Sum(os, IsErr)
    ensures Sum(os, IsErr) == Sum(os, IsTimeout) + Sum(os, IsDns) + Sum(os, IsTransport)
  {
    if os != [] {
      BreakdownComplete(os[..|os| - 1]);
    }
  }

  function CountOf(entry: (u16, nat)): nat { entry.1 }

  lemma {:induction false} CodeInGrows(os: seq<Outcome>, codes: set<u16>, code: u16)
    requires code !in codes
    ensures Sum(os, CodeIn(codes + {code})) == Sum(os, CodeIn(codes)) + CodeCount(os, code)
  {
    if os != [] {
      CodeInGrows(os[..|os| - 1], codes, code);
    }
  }

  lemma {:induction false} CountsCoverCodes(os: seq<Outcome>, codes: seq<(u16, nat)>)
    requires DistinctCodes(codes)
    requires forall e :: e in codes ==> e.1 == CodeCount(os, e.0)
    ensures Sum(codes, CountOf) == Sum(os, CodeIn(set e | e in codes :: e.0))
  {
    if codes == [] {
      assert (set e | e in codes :: e.0) == {};
      NoCodes(os);
    } else {
      var n := |codes| - 1;
      var front := codes[..n];
      CountsCoverCodes(os, front);
      assert codes == front + [codes[n]];
      CodeInGrows(os, set e | e in front :: e.0, codes[n].0);
      assert (set e | e in codes :: e.0) == (set e | e in front :: e.0) + {codes[n].0};
    }
  }

  lemma {:induction false} NoCodes(os: seq<Outcome>)
    ensures Sum(os, CodeIn({})) == 0
  {
    if os != [] {
      NoCodes(os[..|os| - 1]);
    }
  }

  lemma {:induction false} AllCodes(os: seq<Outcome>, codes: set<u16>)
    requires forall i :: 0 <= i < |os| && IsDns(os[i]) == 1 ==> os[i].error.value.code in codes
    ensures Sum(os, CodeIn(codes)) == Sum(os, IsDns)
  {
    if os != [] {
      AllCodes(os[..|os| - 1], codes);
    }
  }

  /** The per-code counts add up to the number of rejections. */
  lemma HistogramTotal(os: seq<Outcome>, codes: seq<(u16, nat)>)
    requires IsHistogram(os, codes)
    ensures Sum(codes, CountOf) == Sum(os, IsDns)
  {
    CountsCoverCodes(os, codes);
    var all := set e | e in codes :: e.0;
    forall i | 0 <= i < |os| && IsDns(os[i]) == 1
      ensures os[i].error.value.code in all
    {
      var code := os[i].error.value.code;
      SumAtLeast(os, HasCode(code), i);
      assert (code, CodeCount(os, code)) in codes;
    }
    AllCodes(os, all);
  }
}
