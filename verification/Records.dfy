/** The shared record generator of src/records.rs. */
module Records {
  import opened Prelude
  import opened Names

  datatype DnsRecord = DnsRecord(hostname: string, ip: Ipv4, ptrName: string)

  datatype Generator = Generator(hosts: seq<Ipv4>, prefix: string, zone: string, random: bool)

  /** The host list is the subnet's: nonempty and without repetition. */
  ghost predicate ValidGenerator(g: Generator) {
    && 0 < |g.hosts| <= 0x1_0000_0000
    && forall i, j :: 0 <= i < j < |g.hosts| ==> g.hosts[i] != g.hosts[j]
  }

  function MakeRecord(g: Generator, ip: Ipv4): DnsRecord {
    DnsRecord(Hostname(g.prefix, g.zone, ip), ip, PtrName(ip))
  }

  /** A record's two names are those of its address. */
  lemma RecordNames(g: Generator, ip: Ipv4)
    ensures var r := MakeRecord(g, ip);
      && r.ip == ip && ParsePtrName(r.ptrName) == Some(ip)
      && exists numeral ::
           r.hostname == g.prefix + numeral + "." + g.zone && Reads(Value(numeral), ip)
  {
    PtrNameRoundTrip(PtrName(ip), ip);
    HostnameReads(g.prefix, g.zone, ip);
    hide Hostname, PtrName, Reads, ParsePtrName;
  }

  /** Position in the host list for a counter value. */
  function Slot(n: nat, h: nat): (i: nat)
    requires h > 0
    ensures i < h
  {
    n % h
  }

  class RecordGenerator {
    const spec: Generator
    const counter: AtomicU64

    constructor (spec: Generator)
      requires spec.hosts != []
      ensures this.spec == spec && fresh(counter) && counter.value == 0
    {
      this.spec := spec;
      counter := new AtomicU64(0);
    }

    /** One draw; `pick` is the index the random source would return. */
    method Next(pick: nat) returns (rec: DnsRecord)
      requires spec.hosts != []
      requires spec.random ==> pick < |spec.hosts|
      modifies counter
      ensures spec.random ==> counter.value == old(counter.value) && rec == MakeRecord(spec, spec.hosts[pick])
      ensures !spec.random ==>
        && counter.value == WrapAdd(old(counter.value))
        && rec == MakeRecord(spec, spec.hosts[Slot(old(counter.value), |spec.hosts|)])
    {
      var ip;
      if spec.random {
        ip := spec.hosts[pick];
      } else {
        var n := counter.FetchAdd();
        ip := spec.hosts[Slot(n, |spec.hosts|)];
      }
      rec := MakeRecord(spec, ip);
    }
  }

  /** Host index of the j-th draw when the counter stood at `start`. */
  function DrawIndex(start: nat, j: nat, h: nat): (i: nat)
    requires h > 0
    ensures i < h
  {
    Slot((start + j) % U64_MODULUS, h)
  }

  /** How many of the first n draws fall on host i. */
  function Hits(start: nat, n: nat, h: nat, i: nat): nat
    requires h > 0
  {
    if n == 0 then 0
    else Hits(start, n - 1, h, i) + (if DrawIndex(start, n - 1, h) == i then 1 else 0)
  }

  /** How many numbers below m are congruent to i modulo h. */
  function Below(m: nat, h: nat, i: nat): nat
    requires h > 0
  {
    m / h + (if i < m % h then 1 else 0)
  }

  lemma DivModUnique(m: nat, h: nat, q: nat, r: nat)
    requires r < h && m == q * h + r
    ensures m / h == q && m % h == r
  {
    QuotientAtMost(q, r, m / h, m % h, h);
    QuotientAtMost(m / h, m % h, q, r, h);
  }

  lemma DivMod(m: nat, h: nat) returns (q: nat, r: nat)
    requires h > 0
    ensures m == q * h + r && r < h && q == m / h && r == m % h
  {
    q, r := m / h, m % h;
  }

  lemma MulNonNegative(x: nat, y: nat)
    ensures x * y >= 0
  {
  }

  lemma QuotientGap(q: nat, q': nat, r': nat, h: nat)
    requires q' < q && r' < h
    ensures q' * h + r' < q * h
  {
    var k := q - q' - 1;
    MulNonNegative(k, h);
    assert q * h == q' * h + h + k * h;
  }

  lemma QuotientAtMost(q: nat, r: nat, q': nat, r': nat, h: nat)
    requires r < h && r' < h && q * h + r == q' * h + r'
    ensures q <= q'
  {
    if q > q' {
      QuotientGap(q, q', r', h);
    }
  }

  lemma BelowStep(m: nat, h: nat, i: nat)
    requires i < h
    ensures Below(m + 1, h, i) == Below(m, h, i) + (if m % h == i then 1 else 0)
  {
    var q, r := m / h, m % h;
    if r + 1 < h {
      DivModUnique(m + 1, h, q, r + 1);
    } else {
      DivModUnique(m + 1, h, q + 1, 0);
    }
  }

  lemma NoWrapIndex(start: nat, j: nat, h: nat)
    requires h > 0 && start + j < U64_MODULUS
    ensures DrawIndex(start, j, h) == (start + j) % h
  {
  }

  lemma {:induction false} HitsClosedForm(start: nat, n: nat, h: nat, i: nat)
    requires i < h && start + n <= U64_MODULUS
    ensures Hits(start, n, h, i) == Below(start + n, h, i) - Below(start, h, i)
  {
    if n > 0 {
      HitsClosedForm(start, n - 1, h, i);
      var m := start + n - 1;
      NoWrapIndex(start, n - 1, h);
      BelowStep(m, h, i);
      assert m + 1 == start + n;
    }
  }

  lemma BelowSum(q: nat, r: nat, a: nat, b: nat, h: nat, i: nat)
    requires i < h && r < h && b < h
    ensures Below((q * h + r) + (a * h + b), h, i) ==
      if r + b < h then q + a + (if i < r + b then 1 else 0)
      else q + a + 1 + (if i < r + b - h then 1 else 0)
  {
    var m := (q * h + r) + (a * h + b);
    assert m == (q + a) * h + (r + b);
    if r + b < h {
      DivModUnique(m, h, q + a, r + b);
    } else {
      assert m == (q + a + 1) * h + (r + b - h);
      DivModUnique(m, h, q + a + 1, r + b - h);
    }
  }

  lemma WindowBounds(start: nat, n: nat, h: nat, i: nat, q: nat, r: nat, a: nat, b: nat)
    requires i < h && r < h && b < h && start == q * h + r && n == a * h + b
    ensures a <= Below(start + n, h, i) - Below(start, h, i) <= a + (if b == 0 then 0 else 1)
  {
    BelowSum(q, r, a, b, h, i);
    BelowSum(q, r, 0, 0, h, i);
    assert 0 * h + 0 == 0;
    assert start + 0 == start;
  }

  /** Until the counter wraps, n draws from any starting point hit every host
      floor(n/h) or ceil(n/h) times. */
  lemma BalancedDraws(start: nat, n: nat, h: nat, i: nat)
    requires i < h && start + n <= U64_MODULUS
    ensures n / h <= Hits(start, n, h, i) <= n / h + (if n % h == 0 then 0 else 1)
  {
    HitsClosedForm(start, n, h, i);
    var q, r := DivMod(start, h);
    var a, b := DivMod(n, h);
    WindowBounds(start, n, h, i, q, r, a, b);
  }

  /** Any h consecutive draws cover every host exactly once. */
  lemma FullTurn(start: nat, h: nat, i: nat)
    requires i < h && start + h <= U64_MODULUS
    ensures Hits(start, h, h, i) == 1
  {
    BalancedDraws(start, h, h, i);
    DivModUnique(h, h, 1, 0);
  }

  /** From a fresh counter the hosts drawn once more are the first n % h. */
  lemma DrawsFromZero(n: nat, h: nat, i: nat)
    requires i < h && n <= U64_MODULUS
    ensures Hits(0, n, h, i) == n / h + (if i < n % h then 1 else 0)
  {
    HitsClosedForm(0, n, h, i);
    DivModUnique(0, h, 0, 0);
  }
}
