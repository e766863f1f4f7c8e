/** The zone a run writes to, and what an update server may do with one
    message (RFC 2136). */
module Update {
  import opened Prelude
  import opened Names

  datatype RrType = A | PTR | Other(code: nat)

  datatype RData = Address(ip: Ipv4) | Target(name: string) | Opaque(bytes: seq<nat>)

  datatype Key = Key(name: string, rrtype: RrType)

  /** An RRset is a set of data under an owner name and type. */
  type Zone = map<Key, set<RData>>

  datatype Message = Create(key: Key, data: RData) | DeleteRrset(key: Key)

  /** `create` carries the prerequisite of section 2.4.3 (the RRset must not
      exist) and the addition of section 2.5.1; `delete_rrset` is the
      unconditional deletion of section 2.5.2. */
  function Apply(zone: Zone, m: Message): Zone {
    match m
    case Create(key, data) => if key in zone then zone else zone[key := {data}]
    case DeleteRrset(key) => zone - {key}
  }

  const NOERROR: u16 := 0
  const YXRRSET: u16 := 7
  const NXRRSET: u16 := 8

  datatype Loss = TimedOut | Broken

  /** What becomes of one message: an answer, with or without the zone having
      been changed, or no answer at all. */
  datatype Verdict = Answered(code: u16, applied: bool) | Lost(loss: Loss)

  /** A server that keeps to RFC 2136: NOERROR means the update was made,
      YXRRSET that the RRset is there, NXRRSET that it is not, and every
      answer but NOERROR leaves the zone alone. */
  predicate Conforms(zone: Zone, m: Message, v: Verdict) {
    v.Answered? ==>
      && (v.applied <==> v.code == NOERROR)
      && (m.Create? && v.code == NOERROR ==> m.key !in zone)
      && (v.code == YXRRSET ==> m.key in zone)
      && (v.code == NXRRSET ==> m.key !in zone)
  }

  /** The same by number (section 2.2 of RFC 2136): every refusal conforms if
      it leaves the zone alone, 7 and 8 if they are true besides, and 0 if the
      update was made and a create was not barred by its prerequisite. */
  lemma ConformsByNumber(zone: Zone, m: Message, v: Verdict)
    ensures Conforms(zone, m, v) <==>
      match v
      case Lost(_) => true
      case Answered(code, applied) =>
        if code == 0 then applied && (m.Create? ==> m.key !in zone)
        else !applied && (code == 7 ==> m.key in zone) && (code == 8 ==> m.key !in zone)
  {
  }

  /** An answer a conforming server can always give, and a client accepts. */
  function Honest(zone: Zone, m: Message): (v: Verdict)
    ensures Conforms(zone, m, v)
  {
    if m.Create? && m.key in zone then Answered(YXRRSET, false) else Answered(NOERROR, true)
  }

  function ZoneAfter(zone: Zone, m: Message, v: Verdict): Zone {
    if v.Answered? && v.applied then Apply(zone, m) else zone
  }

  function LateAfter(late: set<Message>, m: Message, v: Verdict): set<Message> {
    if v.Lost? then late + {m} else late
  }

  /** The two zones agree on one RRset, presence and data. */
  predicate SameAt(z: Zone, w: Zone, k: Key) {
    (k in z <==> k in w) && (k in z ==> z[k] == w[k])
  }

  /** Replayed or late messages are harmless to every other RRset, and a
      second copy of a message does nothing. */
  lemma ApplyOnce(zone: Zone, m: Message)
    ensures Apply(Apply(zone, m), m) == Apply(zone, m)
    ensures forall k :: k != m.key ==> SameAt(Apply(zone, m), zone, k)
    ensures m.key in Apply(zone, m) <==> m.Create?
  {
  }

  lemma SameEverywhere(z: Zone, w: Zone)
    requires forall k :: SameAt(z, w, k)
    ensures z == w
  {
    assert forall k :: k in z ==> SameAt(z, w, k);
    assert forall k :: k in w ==> SameAt(z, w, k);
  }
}
