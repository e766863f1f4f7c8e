/** One transaction of src/dns.rs: its legs, its errors, its effect. */
module Transaction {
  import opened Prelude
  import opened Names
  import opened Update
  import Stats

  datatype Leg = AddA | AddPtr | DelPtr | DelA

  datatype TxError = Timeout | DnsRejected(code: u16, leg: Leg) | Transport

  datatype Shape = Shape(includePtr: bool, includeDelete: bool)

  function Classify(loss: Loss): TxError {
    match loss
    case TimedOut => Timeout
    case Broken => Transport
  }

  function ToErrorKind(e: TxError): Stats.ErrorKind {
    match e
    case Timeout => Stats.Timeout
    case DnsRejected(code, _) => Stats.DnsRejected(code)
    case Transport => Stats.Transport
  }

  function AKey(hostname: string): Key { Key(hostname, A) }

  function PtrKey(ip: Ipv4): Key { Key(PtrName(ip), PTR) }

  /** The message each leg sends. */
  function LegMessage(hostname: string, ip: Ipv4, leg: Leg): Message {
    match leg
    case AddA => Create(AKey(hostname), Address(ip))
    case AddPtr => Create(PtrKey(ip), Target(hostname))
    case DelPtr => DeleteRrset(PtrKey(ip))
    case DelA => DeleteRrset(AKey(hostname))
  }

  /** Answer codes a leg takes as success. */
  predicate Accepts(leg: Leg, code: u16) {
    code == NOERROR || code == (if leg.AddA? || leg.AddPtr? then YXRRSET else NXRRSET)
  }

  /** The leg after an accepted one. */
  function NextLeg(shape: Shape, leg: Leg): Option<Leg> {
    match leg
    case AddA =>
      if shape.includePtr then Some(AddPtr) else if shape.includeDelete then Some(DelA) else None
    case AddPtr => if shape.includeDelete then Some(DelPtr) else None
    case DelPtr => Some(DelA)
    case DelA => None
  }

  /** Legs from `leg` to the end of an undisturbed transaction. */
  function LegsFrom(shape: Shape, leg: Leg): seq<Leg>
    decreases Rank(leg)
  {
    match NextLeg(shape, leg)
    case None => [leg]
    case Some(next) => [leg] + LegsFrom(shape, next)
  }

  function Rank(leg: Leg): nat {
    match leg
    case AddA => 3
    case AddPtr => 2
    case DelPtr => 1
    case DelA => 0
  }

  function Legs(shape: Shape): seq<Leg> {
    LegsFrom(shape, AddA)
  }

  /** The four documented shapes. */
  lemma TransactionShapes()
    ensures Legs(Shape(false, false)) == [AddA]
    ensures Legs(Shape(true, false)) == [AddA, AddPtr]
    ensures Legs(Shape(false, true)) == [AddA, DelA]
    ensures Legs(Shape(true, true)) == [AddA, AddPtr, DelPtr, DelA]
  {
    assert LegsFrom(Shape(true, true), DelPtr) == [DelPtr] + LegsFrom(Shape(true, true), DelA);
  }

  datatype Progress = Continue(leg: Leg) | Done(error: Option<TxError>)

  /** How the client goes on after one exchange. */
  function Advance(shape: Shape, leg: Leg, v: Verdict): Progress {
    match v
    case Lost(loss) => Done(Some(Classify(loss)))
    case Answered(code, _) =>
      if !Accepts(leg, code) then Done(Some(DnsRejected(code, leg)))
      else
        match NextLeg(shape, leg)
        case None => Done(None)
        case Some(next) => Continue(next)
  }

  // ── The transaction as straight-line code ────────────────────────────────

  /** What a transaction that has the server to itself leaves behind. */
  datatype Trace = Trace(zone: Zone, late: set<Message>, error: Option<TxError>)

  /** Iterates the exchanges; `plan` says what befalls each leg's message. */
  function Play(shape: Shape, hostname: string, ip: Ipv4, zone: Zone, late: set<Message>, leg: Leg, plan: Leg -> Verdict): Trace
    decreases Rank(leg)
  {
    var m, v := LegMessage(hostname, ip, leg), plan(leg);
    var zone', late' := ZoneAfter(zone, m, v), LateAfter(late, m, v);
    match Advance(shape, leg, v)
    case Done(error) => Trace(zone', late', error)
    case Continue(next) => Play(shape, hostname, ip, zone', late', next, plan)
  }

  /** The answers a leg survives, by number: NOERROR is 0, YXRRSET 7 and
      NXRRSET 8 (section 2.2 of RFC 2136). */
  predicate Passes(leg: Leg, v: Verdict) {
    v.Answered? && (v.code == 0 || v.code == (if leg.AddA? || leg.AddPtr? then 7 else 8))
  }

  /** The error a leg's verdict ends the transaction with. */
  predicate EndsWith(leg: Leg, v: Verdict, e: TxError) {
    match e
    case Timeout => v == Lost(TimedOut)
    case Transport => v == Lost(Broken)
    case DnsRejected(code, at) => at == leg && v.Answered? && v.code == code && !Passes(leg, v)
  }

  /** No error exactly if all legs pass, else that of the first that does not. */
  ghost predicate ErrorOf(legs: seq<Leg>, plan: Leg -> Verdict, error: Option<TxError>) {
    && (error.None? <==> forall i :: 0 <= i < |legs| ==> Passes(legs[i], plan(legs[i])))
    && (error.Some? ==> exists i ::
          && 0 <= i < |legs| && EndsWith(legs[i], plan(legs[i]), error.value)
          && forall j :: 0 <= j < i ==> Passes(legs[j], plan(legs[j])))
  }

  lemma ErrorOfRest(leg: Leg, rest: seq<Leg>, plan: Leg -> Verdict, error: Option<TxError>)
    requires Passes(leg, plan(leg)) && ErrorOf(rest, plan, error)
    ensures ErrorOf([leg] + rest, plan, error)
  {
    var legs := [leg] + rest;
    assert forall i :: 0 <= i < |rest| ==> legs[i + 1] == rest[i];
    assert forall i :: 1 <= i < |legs| ==> legs[i] == rest[i - 1];
    if error.Some? {
      var i :| 0 <= i < |rest| && EndsWith(rest[i], plan(rest[i]), error.value)
        && forall j :: 0 <= j < i ==> Passes(rest[j], plan(rest[j]));
      assert EndsWith(legs[i + 1], plan(legs[i + 1]), error.value);
    }
  }

  /** A transaction succeeds exactly when all its legs pass, and its error is
      that of the first leg that does not. */
  lemma {:induction false} PlayError(shape: Shape, hostname: string, ip: Ipv4, zone: Zone, late: set<Message>, leg: Leg, plan: Leg -> Verdict)
    ensures ErrorOf(LegsFrom(shape, leg), plan, Play(shape, hostname, ip, zone, late, leg, plan).error)
    decreases Rank(leg)
  {
    var m, v := LegMessage(hostname, ip, leg), plan(leg);
    var legs := LegsFrom(shape, leg);
    assert legs[0] == leg;
    var p := Advance(shape, leg, v);
    if p.Continue? {
      var zone', late' := ZoneAfter(zone, m, v), LateAfter(late, m, v);
      PlayError(shape, hostname, ip, zone', late', p.leg, plan);
      assert legs == [leg] + LegsFrom(shape, p.leg);
      ErrorOfRest(leg, LegsFrom(shape, p.leg), plan, Play(shape, hostname, ip, zone', late', p.leg, plan).error);
    } else if p.error.Some? {
      assert EndsWith(legs[0], plan(legs[0]), p.error.value);
    }
  }

  class UpdateServer {
    var zone: Zone
    var late: set<Message>

    constructor (zone: Zone)
      ensures this.zone == zone && late == {}
    {
      this.zone, late := zone, {};
    }

    /** Sends one message; the answer code, or why there was none. */
    method Exchange(m: Message, v: Verdict) returns (reply: Result<u16, Loss>)
      modifies this
      ensures zone == ZoneAfter(old(zone), m, v) && late == LateAfter(old(late), m, v)
      ensures reply == if v.Answered? then Ok(v.code) else Err(v.loss)
    {
      match v {
        case Answered(code, applied) =>
          if applied { zone := Apply(zone, m); }
          reply := Ok(code);
        case Lost(loss) =>
          late := late + {m};
          reply := Err(loss);
      }
    }
  }

  method TimedCreate(server: UpdateServer, key: Key, data: RData, leg: Leg, v: Verdict) returns (failure: Option<TxError>)
    requires leg.AddA? || leg.AddPtr?
    modifies server
    ensures server.zone == ZoneAfter(old(server.zone), Create(key, data), v)
    ensures server.late == LateAfter(old(server.late), Create(key, data), v)
    ensures failure == match v
      case Answered(code, _) => if code == 0 || code == 7 then None else Some(DnsRejected(code, leg))
      case Lost(TimedOut) => Some(Timeout)
      case Lost(Broken) => Some(Transport)
  {
    var reply := server.Exchange(Create(key, data), v);
    match reply {
      case Err(loss) => failure := Some(Classify(loss));
      case Ok(code) =>
        failure := if code == NOERROR || code == YXRRSET then None else Some(DnsRejected(code, leg));
    }
  }

  method TimedDeleteRrset(server: UpdateServer, key: Key, leg: Leg, v: Verdict) returns (failure: Option<TxError>)
    requires leg.DelPtr? || leg.DelA?
    modifies server
    ensures server.zone == ZoneAfter(old(server.zone), DeleteRrset(key), v)
    ensures server.late == LateAfter(old(server.late), DeleteRrset(key), v)
    ensures failure == match v
      case Answered(code, _) => if code == 0 || code == 8 then None else Some(DnsRejected(code, leg))
      case Lost(TimedOut) => Some(Timeout)
      case Lost(Broken) => Some(Transport)
  {
    var reply := server.Exchange(DeleteRrset(key), v);
    match reply {
      case Err(loss) => failure := Some(Classify(loss));
      case Ok(code) =>
        failure := if code == NOERROR || code == NXRRSET then None else Some(DnsRejected(code, leg));
    }
  }

  datatype TxResult = TxResult(addA: nat, addPtr: Option<nat>, delPtr: Option<nat>, delA: Option<nat>)

  /** A leg that ran has its latency, any other has none. */
  function Measured(shape: Shape, leg: Leg, took: Leg -> nat): Option<nat> {
    if leg in Legs(shape) then Some(took(leg)) else None
  }

  /** The whole transaction, leg by leg as the client runs it; `took` is what
      the clock reads for each leg. */
  method RunTransaction(server: UpdateServer, shape: Shape, hostname: string, ip: Ipv4, connect: Option<Loss>,
                        plan: Leg -> Verdict, took: Leg -> nat)
    returns (r: Result<TxResult, TxError>)
    modifies server
    ensures
      var t := if connect == Some(TimedOut) then Trace(old(server.zone), old(server.late), Some(Timeout))
               else if connect == Some(Broken) then Trace(old(server.zone), old(server.late), Some(Transport))
               else Play(shape, hostname, ip, old(server.zone), old(server.late), AddA, plan);
      && server.zone == t.zone && server.late == t.late
      && t.error == (if r.Ok? then None else Some(r.error))
    ensures r.Ok? ==>
      && Some(r.value.addA) == Measured(shape, AddA, took)
      && r.value.addPtr == Measured(shape, AddPtr, took)
      && r.value.delPtr == Measured(shape, DelPtr, took)
      && r.value.delA == Measured(shape, DelA, took)
      && TotalOf(r.value) == Sum(Legs(shape), took)
  {
    TransactionShapes();
    if connect.Some? {
      return Err(Classify(connect.value));
    }
    ghost var t := Play(shape, hostname, ip, server.zone, server.late, AddA, plan);
    var ptrName := PtrName(ip);
    var failure := TimedCreate(server, Key(hostname, A), Address(ip), AddA, plan(AddA));
    if failure.Some? {
      return Err(failure.value);
    }
    var addPtr, delPtr, delA: Option<nat> := None, None, None;
    assert shape.includePtr ==> t == Play(shape, hostname, ip, server.zone, server.late, AddPtr, plan);
    if shape.includePtr {
      failure := TimedCreate(server, Key(ptrName, PTR), Target(hostname), AddPtr, plan(AddPtr));
      if failure.Some? {
        return Err(failure.value);
      }
      addPtr := Some(took(AddPtr));
    }
    assert shape.includePtr && shape.includeDelete ==> t == Play(shape, hostname, ip, server.zone, server.late, DelPtr, plan);
    if shape.includePtr && shape.includeDelete {
      failure := TimedDeleteRrset(server, Key(ptrName, PTR), DelPtr, plan(DelPtr));
      if failure.Some? {
        return Err(failure.value);
      }
      delPtr := Some(took(DelPtr));
    }
    assert shape.includeDelete ==> t == Play(shape, hostname, ip, server.zone, server.late, DelA, plan);
    assert !shape.includeDelete ==> t == Trace(server.zone, server.late, None);
    if shape.includeDelete {
      failure := TimedDeleteRrset(server, Key(hostname, A), DelA, plan(DelA));
      if failure.Some? {
        return Err(failure.value);
      }
      delA := Some(took(DelA));
    }
    r := Ok(TxResult(took(AddA), addPtr, delPtr, delA));
    SumOfLegs(shape, took);
  }

  function OrZero(d: Option<nat>): nat {
    if d.Some? then d.value else 0
  }

  function TotalOf(r: TxResult): nat {
    r.addA + OrZero(r.addPtr) + OrZero(r.delPtr) + OrZero(r.delA)
  }

  lemma SumOfLegs(shape: Shape, took: Leg -> nat)
    ensures Sum(Legs(shape), took) == took(AddA)
      + (if shape.includePtr then took(AddPtr) else 0)
      + (if shape.includePtr && shape.includeDelete then took(DelPtr) else 0)
      + (if shape.includeDelete then took(DelA) else 0)
  {
    TransactionShapes();
    assert Legs(shape) == ((([] + [AddA])
      + (if shape.includePtr then [AddPtr] else []))
      + (if shape.includePtr && shape.includeDelete then [DelPtr] else []))
      + (if shape.includeDelete then [DelA] else []);
    SumAppend([], AddA, took);
    SumAppend([AddA], AddPtr, took);
    SumAppend([AddA], DelA, took);
    SumAppend([AddA, AddPtr], DelPtr, took);
    SumAppend([AddA, AddPtr, DelPtr], DelA, took);
  }

  /** Accumulates the legs that ran. */
  method Total(r: TxResult) returns (t: nat)
    ensures t == TotalOf(r)
  {
    t := r.addA;
    if r.addPtr.Some? { t := t + r.addPtr.value; }
    if r.delPtr.Some? { t := t + r.delPtr.value; }
    if r.delA.Some? { t := t + r.delA.value; }
  }

  // ── Its effect when nothing interferes ───────────────────────────────────

  /** Every verdict met on the way is one a conforming server could give. */
  predicate ConformingPlan(shape: Shape, hostname: string, ip: Ipv4, zone: Zone, leg: Leg, plan: Leg -> Verdict)
    decreases Rank(leg)
  {
    var m, v := LegMessage(hostname, ip, leg), plan(leg);
    && Conforms(zone, m, v)
    && match Advance(shape, leg, v)
       case Done(_) => true
       case Continue(next) => ConformingPlan(shape, hostname, ip, ZoneAfter(zone, m, v), next, plan)
  }

  /** RRsets a transaction of this shape may write. */
  function TouchedKeys(shape: Shape, hostname: string, ip: Ipv4): set<Key> {
    {AKey(hostname)} + (if shape.includePtr then {PtrKey(ip)} else {})
  }

  lemma AcceptedLeg(zone: Zone, hostname: string, ip: Ipv4, leg: Leg, v: Verdict)
    requires v.Answered? && Accepts(leg, v.code) && Conforms(zone, LegMessage(hostname, ip, leg), v)
    ensures ZoneAfter(zone, LegMessage(hostname, ip, leg), v) == Apply(zone, LegMessage(hostname, ip, leg))
  {
    var m := LegMessage(hostname, ip, leg);
    if v.code == NXRRSET {
      assert zone - {m.key} == zone;
    }
  }

  /** Legs a transaction of this shape can reach. */
  predicate LegFits(shape: Shape, leg: Leg) {
    match leg
    case AddA => true
    case AddPtr => shape.includePtr
    case DelPtr => shape.includePtr && shape.includeDelete
    case DelA => shape.includeDelete
  }

  /** Whatever the server does, no other RRset changes, and only an
      unanswered message stays on the network. */
  lemma {:induction false} PlayFrame(shape: Shape, hostname: string, ip: Ipv4, zone: Zone, late: set<Message>, leg: Leg, plan: Leg -> Verdict)
    requires LegFits(shape, leg)
    ensures var t := Play(shape, hostname, ip, zone, late, leg, plan);
      && (forall k :: k !in TouchedKeys(shape, hostname, ip) ==> SameAt(t.zone, zone, k))
      && (forall m :: m in t.late && m !in late ==> t.error.Some? && m.key in TouchedKeys(shape, hostname, ip))
    decreases Rank(leg)
  {
    var m, v := LegMessage(hostname, ip, leg), plan(leg);
    ApplyOnce(zone, m);
    var p := Advance(shape, leg, v);
    if p.Continue? {
      PlayFrame(shape, hostname, ip, ZoneAfter(zone, m, v), late, p.leg, plan);
    }
  }

  function ToDelete(shape: Shape, hostname: string, ip: Ipv4, leg: Leg): set<Key> {
    {AKey(hostname)} + (if shape.includePtr && leg != DelA then {PtrKey(ip)} else {})
  }

  /** From any leg on, alone on a conforming server, an error-free
      transaction with deletes ends with exactly its own RRsets gone. */
  lemma {:induction false} PlayDeletes(shape: Shape, hostname: string, ip: Ipv4, zone: Zone, late: set<Message>, leg: Leg, plan: Leg -> Verdict)
    requires shape.includeDelete && LegFits(shape, leg)
    requires ConformingPlan(shape, hostname, ip, zone, leg, plan)
    requires Play(shape, hostname, ip, zone, late, leg, plan).error.None?
    ensures Play(shape, hostname, ip, zone, late, leg, plan).zone == zone - ToDelete(shape, hostname, ip, leg)
    decreases Rank(leg)
  {
    var m, v := LegMessage(hostname, ip, leg), plan(leg);
    AcceptedLeg(zone, hostname, ip, leg, v);
    ApplyOnce(zone, m);
    var p := Advance(shape, leg, v);
    if p.Continue? {
      PlayDeletes(shape, hostname, ip, ZoneAfter(zone, m, v), late, p.leg, plan);
    }
  }

  function ToAdd(shape: Shape, hostname: string, ip: Ipv4, leg: Leg): Zone {
    (if leg == AddA then map[AKey(hostname) := {Address(ip)}] else map[])
    + (if shape.includePtr then map[PtrKey(ip) := {Target(hostname)}] else map[])
  }

  /** Without deletes it ends with exactly the missing RRsets added; those
      already there keep their data. */
  lemma {:induction false} PlayAdds(shape: Shape, hostname: string, ip: Ipv4, zone: Zone, late: set<Message>, leg: Leg, plan: Leg -> Verdict)
    requires !shape.includeDelete && LegFits(shape, leg)
    requires ConformingPlan(shape, hostname, ip, zone, leg, plan)
    requires Play(shape, hostname, ip, zone, late, leg, plan).error.None?
    ensures Play(shape, hostname, ip, zone, late, leg, plan).zone == ToAdd(shape, hostname, ip, leg) + zone
    decreases Rank(leg)
  {
    var m, v := LegMessage(hostname, ip, leg), plan(leg);
    AcceptedLeg(zone, hostname, ip, leg, v);
    var p := Advance(shape, leg, v);
    if p.Continue? {
      PlayAdds(shape, hostname, ip, ZoneAfter(zone, m, v), late, p.leg, plan);
    }
  }
}
