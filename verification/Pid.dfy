/** The controller of src/perf.rs, over the reals. */
module PidControl {
  datatype Gains = Gains(kp: real, ki: real, kd: real)

  datatype PidState = PidState(integral: real, prevError: real)

  class Pid {
    const gains: Gains
    const setpoint: real
    var integral: real
    var prevError: real

    ghost function Abs(): PidState
      reads this
    {
      PidState(integral, prevError)
    }

    constructor (gains: Gains, setpoint: real)
      ensures this.gains == gains && this.setpoint == setpoint && Abs() == PidState(0.0, 0.0)
    {
      this.gains, this.setpoint := gains, setpoint;
      integral, prevError := 0.0, 0.0;
    }

    method Update(pv: real) returns (output: real)
      modifies this
      ensures Abs() == NextPid(setpoint, old(Abs()), pv)
      ensures output == Output(gains, setpoint, old(Abs()), pv)
    {
      var error := setpoint - pv;
      integral := integral + error;
      var derivative := error - prevError;
      prevError := error;
      output := gains.kp * error + gains.ki * integral + gains.kd * derivative;
    }
  }

  function NextPid(setpoint: real, st: PidState, pv: real): PidState {
    PidState(st.integral + (setpoint - pv), setpoint - pv)
  }

  function Output(g: Gains, setpoint: real, st: PidState, pv: real): real {
    var error := setpoint - pv;
    g.kp * error + g.ki * (st.integral + error) + g.kd * (error - st.prevError)
  }

  // ── A whole history of error rates ───────────────────────────────────────

  function PidAfter(setpoint: real, pvs: seq<real>): PidState {
    if pvs == [] then PidState(0.0, 0.0)
    else NextPid(setpoint, PidAfter(setpoint, pvs[..|pvs| - 1]), pvs[|pvs| - 1])
  }

  /** Sum of the controller's outputs over the history. */
  function OutputSum(g: Gains, setpoint: real, pvs: seq<real>): real {
    if pvs == [] then 0.0
    else
      var front, pv := pvs[..|pvs| - 1], pvs[|pvs| - 1];
      OutputSum(g, setpoint, front) + Output(g, setpoint, PidAfter(setpoint, front), pv)
  }

  function RateSum(pvs: seq<real>): real {
    if pvs == [] then 0.0 else RateSum(pvs[..|pvs| - 1]) + pvs[|pvs| - 1]
  }

  /** Sum of the errors. */
  function ErrorSum(setpoint: real, pvs: seq<real>): real {
    |pvs| as real * setpoint - RateSum(pvs)
  }

  /** Sum of the error sums of all prefixes. */
  function ErrorDoubleSum(setpoint: real, pvs: seq<real>): real {
    if pvs == [] then 0.0 else ErrorDoubleSum(setpoint, pvs[..|pvs| - 1]) + ErrorSum(setpoint, pvs)
  }

  function LastError(setpoint: real, pvs: seq<real>): real {
    if pvs == [] then 0.0 else setpoint - pvs[|pvs| - 1]
  }

  lemma ErrorSumStep(setpoint: real, pvs: seq<real>)
    requires pvs != []
    ensures ErrorSum(setpoint, pvs) == ErrorSum(setpoint, pvs[..|pvs| - 1]) + (setpoint - pvs[|pvs| - 1])
  {
  }

  lemma Telescope(g: Gains, e: real, before: real, doubled: real, prev: real)
    ensures (g.kp * before + g.ki * doubled + g.kd * prev) + (g.kp * e + g.ki * (before + e) + g.kd * (e - prev))
      == g.kp * (before + e) + g.ki * (doubled + (before + e)) + g.kd * e
  {
    assert g.kp * (before + e) == g.kp * before + g.kp * e;
    assert g.ki * (doubled + (before + e)) == g.ki * doubled + g.ki * (before + e);
    assert g.kd * (e - prev) == g.kd * e - g.kd * prev;
  }

  /** Closed form: the integral is n times the setpoint less the rates seen,
      and the outputs sum to a proportional, a double-sum and a last-error
      term because the derivative telescopes. */
  lemma {:induction false} ClosedForm(g: Gains, setpoint: real, pvs: seq<real>)
    ensures PidAfter(setpoint, pvs) == PidState(ErrorSum(setpoint, pvs), LastError(setpoint, pvs))
    ensures OutputSum(g, setpoint, pvs)
      == g.kp * ErrorSum(setpoint, pvs) + g.ki * ErrorDoubleSum(setpoint, pvs) + g.kd * LastError(setpoint, pvs)
  {
    if pvs != [] {
      var n := |pvs| - 1;
      ClosedForm(g, setpoint, pvs[..n]);
      ErrorSumStep(setpoint, pvs);
      hide ErrorSum;
      Telescope(g, setpoint - pvs[n], ErrorSum(setpoint, pvs[..n]), ErrorDoubleSum(setpoint, pvs[..n]),
                LastError(setpoint, pvs[..n]));
    }
  }

  ghost predicate NeverAbove(pvs: seq<real>, qvs: seq<real>) {
    |pvs| == |qvs| && forall i :: 0 <= i < |pvs| ==> pvs[i] <= qvs[i]
  }

  lemma {:induction false} LowerRatesLargerSums(setpoint: real, pvs: seq<real>, qvs: seq<real>)
    requires NeverAbove(pvs, qvs)
    ensures RateSum(pvs) <= RateSum(qvs)
    ensures ErrorSum(setpoint, pvs) >= ErrorSum(setpoint, qvs)
    ensures ErrorDoubleSum(setpoint, pvs) >= ErrorDoubleSum(setpoint, qvs)
    ensures LastError(setpoint, pvs) >= LastError(setpoint, qvs)
  {
    if pvs != [] {
      LowerRatesLargerSums(setpoint, pvs[..|pvs| - 1], qvs[..|qvs| - 1]);
      ErrorSumStep(setpoint, pvs);
      ErrorSumStep(setpoint, qvs);
      hide ErrorSum;
    }
  }

  lemma ScaleUp(k: real, x: real, y: real)
    requires k >= 0.0 && x >= y
    ensures k * x >= k * y
  {
  }

  /** With nonnegative gains, error rates that are nowhere higher never sum to
      a smaller correction. */
  lemma LowerRatesNeverEndLower(g: Gains, setpoint: real, pvs: seq<real>, qvs: seq<real>)
    requires g.kp >= 0.0 && g.ki >= 0.0 && g.kd >= 0.0
    requires NeverAbove(pvs, qvs)
    ensures OutputSum(g, setpoint, pvs) >= OutputSum(g, setpoint, qvs)
  {
    hide ErrorSum, ErrorDoubleSum, LastError, OutputSum, PidAfter;
    ClosedForm(g, setpoint, pvs);
    ClosedForm(g, setpoint, qvs);
    LowerRatesLargerSums(setpoint, pvs, qvs);
    ScaleUp(g.kp, ErrorSum(setpoint, pvs), ErrorSum(setpoint, qvs));
    ScaleUp(g.ki, ErrorDoubleSum(setpoint, pvs), ErrorDoubleSum(setpoint, qvs));
    ScaleUp(g.kd, LastError(setpoint, pvs), LastError(setpoint, qvs));
  }
}
