/** The steps of one task are the straight-line transaction. */
module EngineTransaction {
  import opened Prelude
  import opened Update
  import opened Transaction
  import opened Engine
  import Stats

  function ReportedError(error: Option<TxError>): Option<Stats.ErrorKind> {
    match error
    case None => None
    case Some(e) => Some(ToErrorKind(e))
  }

  /** The state in which the straight-line code would leave the run. */
  function Played(c: Config, s: State, t: nat, plan: Leg -> Verdict): State
    requires t < |s.tasks| && s.tasks[t].Sending?
  {
    var rec := s.tasks[t].rec;
    var p := Play(c.shape, rec.hostname, rec.ip, s.zone, s.late, s.tasks[t].leg, plan);
    s.(zone := p.zone, late := p.late,
       tasks := s.tasks[t := Reporting(ReportedError(p.error))],
       failed := if p.error.Some? then s.failed + [rec] else s.failed)
  }

  lemma ExchangePlays(c: Config, s: State, t: nat, plan: Leg -> Verdict)
    requires t < |s.tasks| && s.tasks[t].Sending?
    ensures var leg := s.tasks[t].leg;
      var s1 := Step(c, s, Exchange(t, plan(leg)));
      match Advance(c.shape, leg, plan(leg))
      case Done(_) => s1 == Played(c, s, t, plan)
      case Continue(next) =>
        s1.tasks == s.tasks[t := Sending(s.tasks[t].rec, next)] && Played(c, s1, t, plan) == Played(c, s, t, plan)
  {
    var leg := s.tasks[t].leg;
    var p := Advance(c.shape, leg, plan(leg));
    hide ZoneAfter, LateAfter, LegMessage, Advance;
    if p.Continue? {
      var last := Played(c, s, t, plan).tasks[t];
      assert s.tasks[t := Sending(s.tasks[t].rec, p.leg)][t := last] == s.tasks[t := last];
    }
  }

  /** A task left alone at a leg carries its transaction to the end exactly as
      the straight-line code does: same zone, same stray messages, the error
      it reports is that code's result, and nothing else moves. */
  lemma {:induction false} TaskPlaysTransaction(c: Config, s: State, t: nat, plan: Leg -> Verdict)
    returns (acts: seq<Action>)
    requires t < |s.tasks| && s.tasks[t].Sending?
    ensures After(c, s, acts) == Played(c, s, t, plan)
    decreases Rank(s.tasks[t].leg)
  {
    var leg := s.tasks[t].leg;
    var a := Exchange(t, plan(leg));
    ExchangePlays(c, s, t, plan);
    AfterSnoc(c, s, [], a);
    assert [] + [a] == [a];
    hide Played;
    if Advance(c.shape, leg, plan(leg)).Done? {
      acts := [a];
    } else {
      var s1 := Step(c, s, a);
      var rest := TaskPlaysTransaction(c, s1, t, plan);
      acts := [a] + rest;
      AfterConcat(c, s, [a], rest);
    }
  }
}
