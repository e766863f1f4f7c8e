/** Owner names printed by src/records.rs and src/dns.rs. */
module Names {
  import opened Prelude

  type Octet = n: nat | n < 256

  datatype Ipv4 = Ipv4(a: Octet, b: Octet, c: Octet, d: Octet)

  function ToU32(ip: Ipv4): nat {
    ((ip.a * 256 + ip.b) * 256 + ip.c) * 256 + ip.d
  }

  lemma LastDigitSplit(p: nat, d: Octet, q: nat, e: Octet)
    requires p * 256 + d == q * 256 + e
    ensures p == q && d == e
  {
  }

  lemma ToU32Injective(x: Ipv4, y: Ipv4)
    requires ToU32(x) == ToU32(y)
    ensures x == y
  {
    LastDigitSplit((x.a * 256 + x.b) * 256 + x.c, x.d, (y.a * 256 + y.b) * 256 + y.c, y.d);
    LastDigitSplit(x.a * 256 + x.b, x.c, y.a * 256 + y.b, y.c);
    LastDigitSplit(x.a, x.b, y.a, y.b);
  }

  predicate IsDigit(ch: char) {
    '0' <= ch <= '9'
  }

  function Digit(n: nat): char
    requires n < 10
  {
    ['0', '1', '2', '3', '4', '5', '6', '7', '8', '9'][n]
  }

  function Decimal(n: nat): string {
    if n < 10 then [Digit(n)] else Decimal(n / 10) + [Digit(n % 10)]
  }

  /** Reads a numeral back; defined on any string of digits. */
  function Value(s: string): nat {
    if s == [] then 0
    else 10 * Value(s[..|s| - 1]) + DigitValue(s[|s| - 1])
  }

  function DigitValue(ch: char): nat {
    if IsDigit(ch) then ch as nat - '0' as nat else 0
  }

  /** Printing then reading is the identity, and what is printed is a
      nonempty run of digits without a leading zero. */
  lemma {:induction false} DecimalRoundTrip(n: nat)
    ensures Value(Decimal(n)) == n
    ensures Decimal(n) != []
    ensures forall i :: 0 <= i < |Decimal(n)| ==> IsDigit(Decimal(n)[i])
    ensures |Decimal(n)| > 1 ==> Decimal(n)[0] != '0'
  {
    if n < 10 {
      assert Decimal(n)[..0] == [];
    } else {
      var front, last := Decimal(n / 10), Digit(n % 10);
      DecimalRoundTrip(n / 10);
      assert (front + [last])[..|front|] == front;
    }
  }

  /** A canonical numeral is the printed form of its value. */
  lemma {:induction false} DecimalOfValue(s: string)
    requires s != [] && forall i :: 0 <= i < |s| ==> IsDigit(s[i])
    requires |s| > 1 ==> s[0] != '0'
    ensures Decimal(Value(s)) == s
    ensures |s| > 1 ==> Value(s) >= 10
  {
    var n := |s| - 1;
    var front := s[..n];
    assert s == front + [s[n]];
    if n == 0 {
      assert Value(front) == 0;
    } else {
      DecimalOfValue(front);
      if n == 1 {
        assert front[..0] == [];
        assert Value(front) == DigitValue(s[0]) >= 1;
      }
      assert Value(s) / 10 == Value(front) && Value(s) % 10 == DigitValue(s[n]);
    }
  }

  lemma DecimalInjective(m: nat, n: nat)
    ensures Decimal(m) == Decimal(n) ==> m == n
  {
    DecimalRoundTrip(m);
    DecimalRoundTrip(n);
  }

  // ── PTR owner names ──────────────────────────────────────────────────────

  const PTR_SUFFIX: string := "in-addr.arpa."

  /** Reversed octets under in-addr.arpa (section 3.5 of RFC 1035); the
      generator and the transaction print the same form. */
  function PtrName(ip: Ipv4): string {
    Decimal(ip.d) + "." + (Decimal(ip.c) + "." + (Decimal(ip.b) + "." + (Decimal(ip.a) + "." + PTR_SUFFIX)))
  }

  /** The leading label of a name and what follows its dot. */
  function SplitLabel(s: string): Option<(string, string)> {
    if s == [] then None
    else if s[0] == '.' then Some(([], s[1..]))
    else
      match SplitLabel(s[1..])
      case None => None
      case Some((lbl, rest)) => Some(([s[0]] + lbl, rest))
  }

  predicate IsOctetLabel(lbl: string) {
    && lbl != []
    && (forall i :: 0 <= i < |lbl| ==> IsDigit(lbl[i]))
    && (|lbl| > 1 ==> lbl[0] != '0')
    && Value(lbl) < 256
  }

  function ParseOctet(s: string): Option<(Octet, string)> {
    match SplitLabel(s)
    case None => None
    case Some((lbl, rest)) => if IsOctetLabel(lbl) then Some((Value(lbl), rest)) else None
  }

  function ParsePtrName(s: string): Option<Ipv4> {
    match ParseOctet(s)
    case None => None
    case Some((d, s1)) =>
      match ParseOctet(s1)
      case None => None
      case Some((c, s2)) =>
        match ParseOctet(s2)
        case None => None
        case Some((b, s3)) =>
          match ParseOctet(s3)
          case None => None
          case Some((a, s4)) => if s4 == PTR_SUFFIX then Some(Ipv4(a, b, c, d)) else None
  }

  lemma {:induction false} SplitLabelOfJoin(lbl: string, rest: string)
    requires '.' !in lbl
    ensures SplitLabel(lbl + "." + rest) == Some((lbl, rest))
  {
    var s := lbl + "." + rest;
    if lbl == [] {
      assert s[1..] == rest;
    } else {
      SplitLabelOfJoin(lbl[1..], rest);
      assert s[1..] == lbl[1..] + "." + rest;
      assert [lbl[0]] + lbl[1..] == lbl;
    }
  }

  lemma {:induction false} JoinOfSplitLabel(s: string)
    ensures SplitLabel(s).Some? ==> s == SplitLabel(s).value.0 + "." + SplitLabel(s).value.1
  {
    if s != [] && s[0] != '.' {
      JoinOfSplitLabel(s[1..]);
      assert s == [s[0]] + s[1..];
    }
  }

  /** One octet and its dot are read exactly when they were printed. */
  lemma ParseOctetExact(s: string, n: Octet, rest: string)
    ensures ParseOctet(s) == Some((n, rest)) <==> s == Decimal(n) + "." + rest
  {
    if s == Decimal(n) + "." + rest {
      DecimalRoundTrip(n);
      SplitLabelOfJoin(Decimal(n), rest);
    }
    if ParseOctet(s) == Some((n, rest)) {
      JoinOfSplitLabel(s);
      DecimalOfValue(SplitLabel(s).value.0);
    }
  }

  /** A string parses to an address exactly when it is that address's PTR
      name: the round trip in both directions. */
  lemma PtrNameRoundTrip(s: string, ip: Ipv4)
    ensures ParsePtrName(s) == Some(ip) <==> s == PtrName(ip)
  {
    var s4 := PTR_SUFFIX;
    var s3 := Decimal(ip.a) + "." + s4;
    var s2 := Decimal(ip.b) + "." + s3;
    var s1 := Decimal(ip.c) + "." + s2;
    ParseOctetExact(s, ip.d, s1);
    ParseOctetExact(s1, ip.c, s2);
    ParseOctetExact(s2, ip.b, s3);
    ParseOctetExact(s3, ip.a, s4);
    if ParsePtrName(s) == Some(ip) {
      var t1 := ParseOctet(s).value.1;
      var t2 := ParseOctet(t1).value.1;
      var t3 := ParseOctet(t2).value.1;
      ParseOctetExact(s, ip.d, t1);
      ParseOctetExact(t1, ip.c, t2);
      ParseOctetExact(t2, ip.b, t3);
      ParseOctetExact(t3, ip.a, s4);
    }
  }

  lemma PtrNameInjective(x: Ipv4, y: Ipv4)
    ensures PtrName(x) == PtrName(y) ==> x == y
  {
    PtrNameRoundTrip(PtrName(x), x);
    PtrNameRoundTrip(PtrName(x), y);
  }

  /** The labels of a PTR name are the octets, least significant first, under
      in-addr.arpa (section 3.5 of RFC 1035). */
  lemma PtrNameReversed(ip: Ipv4)
    ensures exists s1, s2, s3 ::
      && ParseOctet(PtrName(ip)) == Some((ip.d, s1)) && ParseOctet(s1) == Some((ip.c, s2))
      && ParseOctet(s2) == Some((ip.b, s3)) && ParseOctet(s3) == Some((ip.a, "in-addr.arpa."))
  {
    var s3 := Decimal(ip.a) + "." + PTR_SUFFIX;
    var s2 := Decimal(ip.b) + "." + s3;
    var s1 := Decimal(ip.c) + "." + s2;
    ParseOctetExact(PtrName(ip), ip.d, s1);
    ParseOctetExact(s1, ip.c, s2);
    ParseOctetExact(s2, ip.b, s3);
    ParseOctetExact(s3, ip.a, PTR_SUFFIX);
  }

  // ── Host names ───────────────────────────────────────────────────────────

  function Hostname(prefix: string, zone: string, ip: Ipv4): string {
    prefix + Decimal(ToU32(ip)) + "." + zone
  }

  /** An address read as one number: its octets by place value, most
      significant first. */
  predicate Reads(n: nat, ip: Ipv4) {
    n / 0x100_0000 == ip.a && n / 0x1_0000 % 256 == ip.b && n / 0x100 % 256 == ip.c && n % 256 == ip.d
  }

  lemma ToU32Reads(ip: Ipv4)
    ensures Reads(ToU32(ip), ip)
  {
    var x := ip.a * 256 + ip.b;
    var y := x * 256 + ip.c;
    assert ToU32(ip) / 256 == y && y / 256 == x && x / 256 == ip.a;
    assert ToU32(ip) / 0x1_0000 == x && ToU32(ip) / 0x100_0000 == ip.a;
  }

  /** A host name is the prefix, a numeral that reads back as the address, a
      dot and the zone. */
  lemma HostnameReads(prefix: string, zone: string, ip: Ipv4)
    ensures exists numeral ::
      && Hostname(prefix, zone, ip) == prefix + numeral + "." + zone
      && numeral != [] && (forall i :: 0 <= i < |numeral| ==> IsDigit(numeral[i]))
      && Reads(Value(numeral), ip)
  {
    var numeral := Decimal(ToU32(ip));
    ToU32Reads(ip);
    DecimalRoundTrip(ToU32(ip));
    assert Hostname(prefix, zone, ip) == prefix + numeral + "." + zone;
  }

  /** Distinct addresses get distinct host names, whatever the prefix and zone. */
  lemma HostnameInjective(prefix: string, zone: string, x: Ipv4, y: Ipv4)
    ensures Hostname(prefix, zone, x) == Hostname(prefix, zone, y) ==> x == y
  {
    var dx, dy := Decimal(ToU32(x)), Decimal(ToU32(y));
    var hx, hy := Hostname(prefix, zone, x), Hostname(prefix, zone, y);
    if hx == hy {
      assert |dx| == |dy| == |hx| - |prefix| - 1 - |zone|;
      assert dx == hx[|prefix|..|prefix| + |dx|] == hy[|prefix|..|prefix| + |dy|] == dy;
      DecimalInjective(ToU32(x), ToU32(y));
      ToU32Injective(x, y);
    }
  }
}
