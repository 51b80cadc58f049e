/** The longitudinal controller: a PID law on the speed error whose previous
    error and integral term persist from call to call. The integral is
    never clamped or reset (there is no anti-windup). */
module Longitudinal {

  /** Proportional, integral and derivative gains and the control period. */
  datatype Gains = Gains(p: real, i: real, d: real, dt: real)

  /** What the controller carries from one call to the next. */
  datatype PidState = PidState(prevError: real, iControl: real)

  /** One call: target speed and current speed. */
  datatype Sample = Sample(target: real, current: real)

  function Error(s: Sample): real { s.target - s.current }

  /** The state after one call on `target` and `current`. */
  function Next(g: Gains, st: PidState, target: real, current: real): PidState
  {
    var e := target - current;
    PidState(e, st.iControl + g.i * e * g.dt)
  }

  /** The value one call returns: proportional term, the already updated
      integral term, and the derivative estimated over one period. */
  function Output(g: Gains, st: PidState, target: real, current: real): real
    requires g.dt != 0.0
  {
    var e := target - current;
    g.p * e + Next(g, st, target, current).iControl + g.d * (e - st.prevError) / g.dt
  }

  /** The state after a run of calls, oldest first. */
  function Run(g: Gains, st: PidState, calls: seq<Sample>): PidState
    decreases |calls|
  {
    if calls == [] then st
    else
      var last := calls[|calls| - 1];
      Next(g, Run(g, st, calls[..|calls| - 1]), last.target, last.current)
  }

  /** Sum of the speed errors of a run of calls. */
  function SumErrors(calls: seq<Sample>): real
    decreases |calls|
  {
    if calls == [] then 0.0 else SumErrors(calls[..|calls| - 1]) + Error(calls[|calls| - 1])
  }

  /** The integral term after a run is the starting one plus the integral
      gain times the period times the sum of all errors seen: nothing ever
      resets or clamps it. */
  lemma {:induction false} RunIntegral(g: Gains, st: PidState, calls: seq<Sample>)
    ensures Run(g, st, calls).iControl == st.iControl + g.i * g.dt * SumErrors(calls)
    decreases |calls|
  {
    if calls != [] {
      var init, last := calls[..|calls| - 1], calls[|calls| - 1];
      RunIntegral(g, st, init);
      var e := Error(last);
      calc {
        Run(g, st, calls).iControl;
        Run(g, st, init).iControl + g.i * e * g.dt;
        st.iControl + g.i * g.dt * SumErrors(init) + g.i * g.dt * e;
        { assert g.i * g.dt * SumErrors(init) + g.i * g.dt * e == g.i * g.dt * (SumErrors(init) + e); }
        st.iControl + g.i * g.dt * SumErrors(calls);
      }
    }
  }

  /** After any non-empty run the remembered error is that of the last call. */
  lemma RunPrevError(g: Gains, st: PidState, calls: seq<Sample>)
    requires calls != []
    ensures Run(g, st, calls).prevError == Error(calls[|calls| - 1])
  {
  }

  /** With the integral gain at zero, as configured, the integral term keeps
      its starting value through every run of calls. */
  lemma {:induction false} ZeroIntegralGain(g: Gains, st: PidState, calls: seq<Sample>)
    requires g.i == 0.0
    ensures Run(g, st, calls).iControl == st.iControl
  {
    RunIntegral(g, st, calls);
  }

  /** The output of the call that follows a run: the proportional term on the
      new error, the integral of every error so far, and the derivative
      term on the change from the last error of the run. */
  lemma {:induction false} OutputAfterRun(g: Gains, st: PidState, calls: seq<Sample>, target: real, current: real)
    requires g.dt != 0.0
    requires calls != []
    ensures var e := target - current;
            Output(g, Run(g, st, calls), target, current)
            == g.p * e + st.iControl + g.i * g.dt * (SumErrors(calls) + e)
               + g.d * (e - Error(calls[|calls| - 1])) / g.dt
  {
    RunIntegral(g, st, calls);
    var e := target - current;
    assert g.i * g.dt * SumErrors(calls) + g.i * e * g.dt == g.i * g.dt * (SumErrors(calls) + e);
  }

  /** A call whose error equals the remembered error has no derivative
      contribution; if that error is zero the output is the integral term. */
  lemma SteadyError(g: Gains, st: PidState, target: real, current: real)
    requires g.dt != 0.0
    requires target - current == st.prevError
    ensures Output(g, st, target, current) == g.p * st.prevError + Next(g, st, target, current).iControl
    ensures st.prevError == 0.0 ==> Output(g, st, target, current) == st.iControl
  {
    assert g.d * (st.prevError - st.prevError) / g.dt == 0.0;
  }

  /** The controller object of the vehicle node, with its configured gains
      and period. */
  class PidControl {
    const pGain: real := 0.3
    const iGain: real := 0.0
    const dGain: real := 0.03
    const controlTime: real := 0.02
    var prevError: real
    var iControl: real

    constructor ()
      ensures prevError == 0.0 && iControl == 0.0
    {
      prevError := 0.0;
      iControl := 0.0;
    }

    function Config(): Gains
    {
      Gains(pGain, iGain, dGain, controlTime)
    }

    function State(): PidState
      reads this
    {
      PidState(prevError, iControl)
    }

    /** One controller call: returns the signed actuation value and remembers
        the error. */
    method Pid(targetVel: real, currentVel: real) returns (output: real)
      modifies this
      ensures prevError == targetVel - currentVel
      ensures iControl == old(iControl) + iGain * (targetVel - currentVel) * controlTime
      ensures output == pGain * (targetVel - currentVel) + iControl
                        + dGain * ((targetVel - currentVel) - old(prevError)) / controlTime
      ensures State() == Next(Config(), old(State()), targetVel, currentVel)
      ensures output == Output(Config(), old(State()), targetVel, currentVel)
      ensures iControl == old(iControl)
    {
      var error := targetVel - currentVel;
      var pControl := pGain * error;
      iControl := iControl + iGain * error * controlTime;
      var dControl := dGain * (error - prevError) / controlTime;
      output := pControl + iControl + dControl;
      prevError := error;
    }
  }
}
